# Elpriset price-dashboard core, modelled in Dafny

Elpriset is a browser dashboard. It shows Swedish hourly electricity spot prices for one bidding region (SE1–SE4). This project models the logic in `script.js` between the price download and the page:

- combining today's and tomorrow's downloads, and keeping the records that start an hour;
- validating the combined data;
- normalising every record through a memo cache keyed by its `time_start` string. The cache expires after an hour or when the region changes, and it counts hits and misses;
- sorting the records by timestamp and choosing the 8-hour box window and the 16-hour chart window. The choice runs through a fixed fallback order, with a special splice from 22:00 that pulls in tomorrow's records;
- the statistics over the chart window (lowest, highest, average) and each hour's tertile class (low/medium/high, and its colour twin green/yellow/red);
- the small helpers: the `YYYY/MM-DD` date fragment of the API URL, the cookie parser, and the ordered region and theme preference fallbacks.

Modelling choices:

- **Prices** are integers in hundredths of an öre. The tertile thresholds `min + range·0.33` and `min + range·0.66` are compared exactly, by multiplying both sides by 100.
- **Inputs are parameters.** The clock is `Window.Clock`: the current hour's start, the day's start and the hour of day. `Date` parsing of a `time_start` string is a function parameter giving epoch milliseconds and the local minute and second. A local-storage read is a `Result<Option<string>, string>`: the stored value or none, or the exception `getItem` throws when storage is blocked. The service-worker value is an `Option<string>`, since its read is wrapped in a try/catch. The cookie jar is a string.
- **The process-wide memo state** is one immutable value, `Cache.CacheState`: `dataCache`, the map inside the `memoizedGetPriceCategory` closure, and `cacheStats`, which lookups in either map move. Operations take it and return it.
- **The statistics** are `Statistics.Stats`. `Math.min()` and `Math.max()` of no arguments are `PosInfinity` and `NegInfinity`. The average is `sum / count` before `toFixed(2)`; a count of 0 stands for NaN.

Modules:

| module | file | what it models |
|---|---|---|
| `Wrappers` | wrappers.dfy | `Option`, `Result` |
| `Seqs` | seqs.dfy | `findIndex`, `filter`, `slice` |
| `Tertiles` | tertiles.dfy | `getPriceCategory`, `getColorForPrice` |
| `Cache` | cache.dfy | `dataCache`, `cacheStats`, `getCachedValue`, `shouldInvalidateCache` |
| `Fetch` | fetch.dfy | `validatePriceData`, `filterHourlyPrices`, the combine step of `fetchPrices` |
| `ApiDate` | apidate.dfy | `formatDateForApi` and a parser for its output |
| `Preferences` | preferences.dfy | `getCookie`, `getRegionPreference`, `getThemePreference`, `isDarkMode` |
| `Window` | window.dfy | sorting and window selection in `processData` |
| `Statistics` | statistics.dfy | `processHourlyData`, `memoizedGetPriceCategory` |
| `Pipeline` | pipeline.dfy | `processData` end to end |

### Behaviours of the code worth knowing

- **Empty window.** An empty chart window gives `Infinity`, `-Infinity` and a NaN average, not zeros: `Math.min()` and `Math.max()` of nothing. Zeros appear only when the integrity check on the box window fails. See `Statistics.EmptyChartStatistics`.
- **Past-data fallback.** The comment at script.js:732 says "most recent past hour", but the `findIndex` takes the earliest record before the current hour, since the data is sorted ascending. See `Window.PastFallbackIsEarliest`.
- **Zero `lastUpdate`.** `!dataCache.lastUpdate` also treats a `lastUpdate` of 0 as unset. See `Cache.ZeroStampLooksUnset`.
- **Blocked storage.** `localStorage.getItem` is called outside any try/catch in both preference getters (script.js:70, script.js:1136), while the writes are wrapped (script.js:30, script.js:1092). When storage is blocked the getters reject instead of falling back to the cookie. See `Preferences.BlockedStorageRejects`.

## Model

| member | source | states |
|---|---|---|
| `Tertiles.PriceCategory` | script.js:555-563 | low iff price ≤ min + 0.33·range; medium iff above that and ≤ min + 0.66·range; high iff above both, with the thresholds taken as exact values |
| `Tertiles.ColorForPrice` | script.js:432-440 | green iff price ≤ min + 0.33·range; yellow iff above that and ≤ min + 0.66·range; red iff above both |
| `Tertiles.ColorMatchesCategory` | script.js:432-440 | the colour is green, yellow or red exactly when the class is low, medium or high |
| `Tertiles.CategoryMonotone` | script.js:555-563 | a dearer price never gets a cheaper class |
| `Tertiles.ExtremesClassified` | script.js:555-563 | in a range with lowest ≤ highest, the lowest price is low, and the highest is high when the two differ |
| `Tertiles.CategoryBoundaries` | script.js:555-563 | with a 0–100 öre range, 33 is low, 34 and 66 are medium, 67 is high |
| `Tertiles.CategoryOfOperand` | script.js:782-783 | a whole record passed where a price is expected compares as NaN, so the class is always high; a number gets its price class |
| `Cache.GetCachedValue` | script.js:343-353 | a hit returns the stored value, leaves the map unchanged and increments only hits. A miss stores the generated value under the key, returns it and increments only misses. Exactly one counter grows per call |
| `Cache.SoundLookup` | script.js:343-353 | a lookup through a memo holding only the generator's answers returns the generator's answer, and the memo keeps that property |
| `Cache.ShouldInvalidate` | script.js:355-362 | the cache is kept exactly when a non-zero `lastUpdate` is at most one hour old and the cached region is the current one; another region always invalidates |
| `Cache.Clear` | script.js:314-319 | both maps are emptied and `lastUpdate` is unset; the region, the price-class memo and the hit/miss counters are kept; `lastCleared` is set to now |
| `Cache.Revalidate` | script.js:611-619 | afterwards the cached region is the current one; the cache is cleared exactly when `shouldInvalidateCache` holds, and otherwise untouched |
| `Cache.FreshAfterRefresh` | script.js:355-362 | after a refresh stamped at a non-zero time, checking the same region at once, or exactly one hour later, does not invalidate. One millisecond past the hour it does, and any other region does |
| `Cache.ZeroStampLooksUnset` | script.js:356-360 | a refresh stamped at time 0 still reads as "no previous cache", because 0 is falsy |
| `Cache.InvalidationForgetsEntries` | script.js:612-619 | switching region discards every cached timestamp and price |
| `Fetch.CombineAndFilter` | script.js:522-548 | fails with the no-data message exactly when neither download gave an array with records; otherwise the result is non-empty and every record comes from one of the downloads |
| `Fetch.CombineKeepsHourlyInOrder` | script.js:540-544 | when some record starts an hour, the result is the hourly records of today's download followed by those of tomorrow's, each in download order |
| `Fetch.CombineFallsBackToAll` | script.js:540-548 | when no record starts an hour, the result is all downloaded records, unfiltered |
| `Fetch.OneFailedDownload` | script.js:524-534 | a rejected download counts the same as one that did not return an array; one good download suffices |
| `Fetch.FilterHourlyInOrder` | script.js:386-392 | the hourly records of the first k + 1 records are those of the first k, followed by record k when it starts an hour: download order is kept |
| `Fetch.ValidatePriceData` | script.js:374-383 | data passes exactly when it is a non-empty array and every record in it has a truthy `time_start` and a numeric, non-NaN price |
| `Fetch.CombinedDataValid` | script.js:374-383 | when every downloaded record is valid, the combined result passes `validatePriceData` |
| `Fetch.FilterHourly` | script.js:386-392 | a record is kept exactly when it was in the input and its parsed minute and second are both zero, and it is kept as many times as it occurs in the input |
| `ApiDate.FormatRoundTrip` | script.js:442-447 | the fragment reads back as the year, the 1-based month and the day; the month and day fields are two digits wide |
| `ApiDate.FormatDateForApi` | script.js:442-447 | the fragment is six characters longer than the year: `/`, two month digits, `-`, two day digits |
| `ApiDate.PaddedRoundTrip` | script.js:444-445 | zero-padding a number below 100 to two digits does not change the number it reads as |
| `Preferences.SplitJoin` | script.js:1081 | joining the parts of `split(';')` with `;` gives the cookie string back |
| `Preferences.SplitAppend` | script.js:1081 | splitting `a;b` gives the parts of `a` followed by the parts of `b` |
| `Preferences.FirstCookie` | script.js:1082-1086 | a returned value follows `name=` in some cookie with its leading spaces dropped; nothing is returned exactly when no such cookie starts with `name=` |
| `Preferences.FirstCookieAppend` | script.js:1082-1086 | cookies are searched in order, so a match among earlier cookies hides later ones |
| `Preferences.GetCookie` | script.js:1079-1088 | a returned value is what follows `name=` in one of the `;`-separated cookies, leading spaces dropped, and holds no `;`; null exactly when no cookie starts with `name=` |
| `Preferences.SingleCookieRoundTrip` | script.js:1079-1088 | a jar holding only `name=value` answers `getCookie(name)` with `value` |
| `Preferences.AppendedCookieRoundTrip` | script.js:1079-1088 | appending `; name=value` to a jar without `name` makes `getCookie(name)` return `value` |
| `Preferences.FirstValid` | script.js:1134-1165 | returns the first backend, in priority order, that holds an allowed value, and returns none exactly when no backend does |
| `Preferences.GetRegionPreference` | script.js:1134-1165 | a returned region is one of SE1–SE4; the call rejects, with the same error, exactly when reading local storage throws |
| `Preferences.RegionFallbackOrder` | script.js:1134-1165 | local storage wins when valid; otherwise the cookie; otherwise the service-worker value; otherwise SE3 |
| `Preferences.GetThemePreference` | script.js:68-99 | a returned theme is light or dark and comes from one of the three backends; the call rejects exactly when reading local storage throws |
| `Preferences.ThemeFallbackOrder` | script.js:68-99 | the same backend order for the theme, with null when no backend holds light or dark |
| `Preferences.IsDarkMode` | script.js:121-127 | dark mode is reported only when the system prefers dark or some backend stores "dark", and light only when the system does not prefer dark or some backend stores "light"; it rejects exactly when the theme lookup does |
| `Preferences.BlockedStorageRejects` | script.js:68-70 | when reading local storage throws, the region, theme and dark-mode reads all reject with that error; the cookie is not consulted |
| `Preferences.StoredThemeWins` | script.js:121-127 | a stored theme decides dark mode whatever the system prefers; without one, the system preference decides |
| `Window.SortByTime` | script.js:648 | the output is sorted by timestamp and is a permutation of the input |
| `Window.SelectWindows` | script.js:667-745 | the box holds at most 8 records; the chart holds at most 16 before 22:00 and at most 30 after; both windows hold only input records |
| `Window.Rollover` | script.js:675-707 | the splice keeps the box at 8 or fewer; the chart stays at 16 or fewer, or a short chart of at most 15 grows by at most 16 − (24 − hour), so to at most 30 at 23:00; non-empty windows stay non-empty, and only tomorrow's records are added |
| `Window.FilterFromIsSuffix` | script.js:682 | on sorted records, tomorrow's records are the suffix that starts at the first record at or after tomorrow's start |
| `Window.ExactMatchWindows` | script.js:667-672 | before 22:00, with the current hour first found at i, the box is `sorted[i..i+8]` and the chart is `sorted[i..i+16]` (cut at the end). The box is a prefix of the chart |
| `Window.RolloverBoxSplice` | script.js:675-693 | from 22:00, with a full 8-slice and some of tomorrow's records, the box is the `24 − hour` records up to midnight followed by the first `8 − (24 − hour)` of tomorrow's |
| `Window.ElevenPmBox` | script.js:675-693 | at 23:00 on consistent sorted data, the box is the 23:00 record followed by seven of tomorrow's records |
| `Window.NextHourFallback` | script.js:720-729 | without the current hour, the windows start at the first record from the next hour on, and nothing is spliced |
| `Window.PastFallbackIsEarliest` | script.js:732-741 | with no current or later record, the windows start at index 0: the earliest past records |
| `Window.EmptyWindowsIff` | script.js:744-745 | the box and the chart are empty together, exactly when every record lies strictly inside the current hour |
| `Window.ChartOverflowAtElevenPm` | script.js:696-698 | at 23:00, with the 23:00 record and eight of tomorrow's, the chart has 17 records and repeats tomorrow's first hour |
| `Window.BoxDuplicateAtElevenPm` | script.js:685-687 | at 23:00, with the 23:00 record and one of tomorrow's, the box lists tomorrow's record twice |
| `Statistics.Aggregate` | script.js:774-780 | for a non-empty chart, lowest and highest are prices in the chart that bound all others, and the sum lies between n·lowest and n·highest. For no prices the result is +Infinity, −Infinity and NaN |
| `Statistics.SumBounds` | script.js:779 | a sum of n values within [lo, hi] lies within [n·lo, n·hi] |
| `Statistics.ProcessHourlyData` | script.js:748-792 | a box entry without a numeric price or timestamp clears the cache and yields the zeroed summary. Otherwise prices, times and statistics come from the chart window, there is one class per chart hour, the data cache is untouched, earlier price-class memo entries survive, and one memo lookup is counted per chart hour |
| `Statistics.ProcessHourlyClasses` | script.js:773-784 | with a price-class memo holding only `getPriceCategory` answers, each chart hour is classed by its own price within the chart's lowest and highest, and the memo keeps that property |
| `Statistics.StatsFromChartOnly` | script.js:773-774 | for valid box windows, the result depends only on the chart window |
| `Statistics.ChartStatistics` | script.js:773-784 | for a non-empty chart, the cheapest hour is classed low, the dearest is classed high when prices differ, and the average lies between lowest and highest |
| `Statistics.EmptyChartStatistics` | script.js:776-780 | an empty chart gives +Infinity, −Infinity and a NaN average, not zeros |
| `Statistics.ColorsAsWritten` | script.js:782-784 | the colour list as written gives one class per chart hour, and every one is high |
| `Statistics.ColorDefectWitness` | script.js:782-784 | for hours priced 0 and 100 öre, the written code gives high, high; classing by price gives low, high |
| `Statistics.MemoCategory` | script.js:365-371 | a cached (price, lowest, highest) answers from the memo unchanged; a new one is classed, stored and returned; one request is counted either way |
| `Statistics.MemoClassifyAll` | script.js:782-784 | one class per price; every (price, lowest, highest) ends up in the memo and earlier keys survive; one request is counted per price |
| `Statistics.MemoClassifyAgrees` | script.js:365-371 | classifying through a memo that only stored `getPriceCategory` answers gives exactly the direct classes and keeps the memo that way |
| `Pipeline.Normalize` | script.js:622-642 | a key already cached keeps its cached timestamp and price; a new key gets the parsed time and the derived price (0 for NaN). Two lookups are counted; earlier entries, `lastUpdate` and the region are kept |
| `Pipeline.NormalizeAll` | script.js:622-643 | one record per input record, in input order and with the same `time_start`; every key ends up cached; earlier entries survive; two lookups per record |
| `Pipeline.RecordsMatchCache` | script.js:622-643 | each record carries the value its key holds in the cache after the whole pass |
| `Pipeline.NormalizedTimestampsParsed` | script.js:623-628 | when the timestamp map holds only parsed times, every record's timestamp is the parse of its own `time_start`, and the map keeps that property |
| `Pipeline.FreshPrices` | script.js:629-636 | with distinct keys none of which is cached, every record gets its own derived price |
| `Pipeline.CachedPriceWins` | script.js:629-636 | a key cached before the pass keeps its cached price, whatever the new record says |
| `Pipeline.ProcessData` | script.js:600-746 | invalid data leaves the cache alone and gives the summary of no hours (+Infinity, −Infinity, NaN). Valid data leaves the current region cached with `lastUpdate` = now; clears the cache exactly when `shouldInvalidateCache` holds; counts two lookups per downloaded record plus one per chart hour; shows at most 16 chart hours before 22:00 and at most 30 after |
| `Pipeline.ShownClassesAreTertiles` | script.js:773-784 | from a price-class memo holding only `getPriceCategory` answers, every shown hour is classed by its own price within the shown lowest and highest, and the memo stays that way for the next run |
| `Pipeline.ImmediateRecheckIsFresh` | script.js:612-645 | after a run on valid data at a non-zero time, an immediate re-check for the same region does not invalidate |
| `Pipeline.FreshRunPricesFromData` | script.js:612-648 | on a run that invalidates the cache, with distinct keys, every displayed price is the price of some downloaded record |

## Left out

- DOM and Chart.js rendering, `updateHourlyPrices`, `updateChart`, `updateStatistics`, the theme toggle, loading and error indicators, the PWA install and resize handlers, and `initialize`: presentation and event plumbing with no decisions to state.
- The network: `checkApiAccessibility`, `tryFetchWithProxies` and the fetches in `fetchPrices`. Each download is an input, `Fetch.Settled`.
- Floating point. The derived price `parseFloat((SEK_per_kWh·100).toFixed(2))` is an integer in hundredths of an öre on the record. The average is kept as a sum and a count, because `toFixed(2)` is display formatting.
- `Date`: parsing `time_start` strings, local-time getters, `formatTime`, and daylight-saving days. The clock is a parameter, and a day is taken to be 24 hours, as the code assumes.
- Pipeline.NormalizeAll: an unparseable `time_start` gives a NaN timestamp in JavaScript, and NaN passes the `typeof` integrity check; here timestamps are integers.
- Statistics.MemoClassifyAll: the memo key `${price}-${min}-${max}` is modelled as the triple itself, which assumes distinct triples give distinct strings.
- Tertiles.PriceCategory: the thresholds are compared exactly, which is the intended rule. JavaScript computes `min + range * 0.33` in binary floating point, and the result can land just below the exact value, so a price on a threshold goes to the higher class there. Prices 5.69 öre in a range of 1.40–14.40 öre: `1.40 + 13 * 0.33` is 5.6899999999999995 in doubles, so the code classes the hour medium, while `PriceCategory(569, 140, 1440)` is `Low`. Likewise 21.94 öre in 0.49–32.99 öre is high in the code and `Medium` here. `Tertiles.ColorForPrice` has the same difference.
- Preferences.GetCookie: reading `document.cookie` can also throw when storage is blocked; the jar is modelled as a string that is always readable.
- Statistics.ProcessHourlyData: the chart window is typed as normalised records. The source reads `parsedPrice` from it without checking; only the box window goes through the integrity check, and that is modelled.
- Window.SortByTime: the sort is an insertion sort that keeps equal timestamps in input order, as JavaScript's stable sort does. The model does not state that stability as a property.
- `getChartColors`: it tests a Promise for truthiness, which only affects chart colours.
- What `initialize` does when `getRegionPreference` rejects (it stops before fetching prices): `initialize` is event plumbing; the rejection itself is modelled.
- The write side of preferences (`saveThemePreference`, `saveRegionPreference`, `setCookie`): best-effort writes to browser storage.
- `preloadNextHourData` and `cacheStats.log`: they only log.
- The console messages on each path, e.g. the warning about missing tomorrow data near midnight: logging only.
- `sw.js` and the build scripts (`generate-icons.js`, `generate-splash-screens.js`, `create-source-icon.js`, `update-version.js`): service-worker caching and image or file generation, outside the dashboard logic.

## Findings

| source | as written | input that shows it | evidently intended | confidence | as-written member | corrected member |
|---|---|---|---|---|---|---|
| script.js:782-784 | `chartHours.map(price => memoizedGetPriceCategory(price, …))` passes each whole record object. Every `<=` against it compares NaN and is false, so every hour is classed high | a chart of two hours priced 0 and 100 öre: as written both are high | class each hour by its `parsedPrice`: low, then high | high (reasoned from the code and proved in the model; not executed) | `Statistics.ColorsAsWritten` | `Statistics.ProcessHourlyData` |
