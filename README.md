# FabSim dashboard data service, in Dafny

A model of the spreadsheet data service of the FabSim dashboard
(`src/components/excelParse/csvDataService.js`). The service:

- reads a simulation-output workbook;
- resolves the simulation window (start and end day, inclusive day count, wafer starts) from the
  `variable`/`value` rows of `Simulation_Summary`;
- extracts one fixed-length series per metric (row `2 + day` of the metric's sheet fills slot `day`);
- replays the result to subscribers, one day per timer tick.

A second stream mode emits random demo figures and stops itself after `maxTicks` ticks.

Files, one module each:

- `js_values.dfy` (`JsValues`): the JavaScript values a workbook cell can hold. It also defines the
  built-ins the service relies on: truthiness, `String(v)`, `trim`, ASCII `toLowerCase`,
  `Math.round`, and `new Date(ms)` with its time range.
- `workbook.dfy` (`Workbook`): worksheets as sequences of optional rows, `row.values`, `getRow`,
  `findRow` and `getCell`.
- `cells.dfy` (`Cells`): `normalizeTs`, `normalizeToDayUTC`, `cellToValue`, `toNumberOrNull`,
  `headersFromWorksheet` and `findColIndex`.
- `window.dfy` (`Window`): `parseSimulationWindow`, with its row scan as a loop, plus worked
  examples.
- `series.dfy` (`Series`): the metric table, `initSeriesStore`, `fillSeriesFromSheet` writing
  arrays in place, and the store build.
- `stream.dfy` (`Stream`): the module state as class `DataService`. It covers the listener registry,
  the single timer slot, `buildSeriesStore`, both stream starts, one method per firing of each
  interval callback, `stopStream`, and the getters.

Built-ins whose meaning depends on a full number or date grammar are fields of a `Host` value.
Every operation takes it as a parameter. They are:

- `Number(string)`;
- `new Date(string)`;
- the `String` of a number or a Date;
- `RegExp.prototype.test`.

Random draws and the current time are parameters of the methods that use them.

Facts about the code that a reader might not expect:

- **Empty metric cells.** The code computes `Number(cellToValue(cell))`, and `Number(null)` is 0.
  So an empty cell in a row the sheet holds reads as 0, not null (`Series.EmptyCellReadsAsZero`).
  A boolean reads as 1 or 0, and a Date as its time value.
- **Wafer starts.** Wafer starts is whatever number the cell holds, with nothing requiring it to be
  a non-negative integer.
- **Two-digit years.** `normalizeToDayUTC` rebuilds the date with `Date.UTC`, which reads a year
  from 0 to 99 as `1900 + year`. A date in the first century therefore moves on to the same month
  and day in 1900 to 1999 (`Cells.TwoDigitYearShift`).
- **Rows that are not there.** The row library's `getRow` never returns undefined: for a row the
  sheet does not hold it makes a new, empty row numbered as asked. As written, the guard at line
  244 therefore never skips a day, and a day past the end of a short metric sheet reads as 0
  (see Findings).

## Model

| member | source | states |
|---|---|---|
| `JsValues.TrimProperties` | src/components/excelParse/csvDataService.js:79 | `trim` leaves no whitespace at either end, and gives "" exactly for all-whitespace text |
| `JsValues.RoundHalfUp` | src/components/excelParse/csvDataService.js:59 | `Math.round` is the integer within half a unit, halves rounded up |
| `JsValues.MakeDate` | src/components/excelParse/csvDataService.js:59 | `new Date(ms)` is valid exactly inside ±8.64e15 ms, and keeps its time value there |
| `JsValues.Lower` | src/components/excelParse/csvDataService.js:106 | lower-casing keeps the length and maps every character on its own |
| `JsValues.PlaceholderName` | src/components/excelParse/csvDataService.js:79-80 | the `col_i` placeholder is non-empty and trimmed |
| `Workbook.FindRow` | src/components/excelParse/csvDataService.js:243-244 | `findRow` gives a row only for a row number inside the sheet; a number past the last row gives none |
| `Workbook.CellAt` | src/components/excelParse/csvDataService.js:245 | `getCell(col).value` is the entry `col` of `row.values`, and a cell past the end of the row is empty |
| `Cells.NormalizeTsUnwraps` | src/components/excelParse/csvDataService.js:50-67 | `normalizeTs` unwraps `result`, then `text`, then `value`, recursively, and then applies the scalar rules: falsy gives null, a Date is kept, a string is parsed (null if invalid), a number is a serial day |
| `Cells.NormalizeTs` | src/components/excelParse/csvDataService.js:50-67 | a falsy value gives null; a Date is kept; a number gives null exactly when it is 0; a string never gives an Invalid Date |
| `Cells.SerialDayIsUtcMidnight` | src/components/excelParse/csvDataService.js:57-60 | serial day `n` is the Date `(n - 25569)` whole days after the Unix epoch, which outside the years 0 to 99 is already its own UTC day |
| `Cells.InvalidDateOnlyFromNumbersOrDates` | src/components/excelParse/csvDataService.js:53-60 | an Invalid Date comes only from an out-of-range number or an Invalid Date cell, never from a string |
| `Cells.NormalizeToDayUtc` | src/components/excelParse/csvDataService.js:69-72 | the result is valid exactly when the input is, and always a UTC midnight outside the years 0 to 99; for a date outside those years it is the midnight `r` with `r <= d < r + 1 day`, and for one inside them a midnight from 1900 on |
| `Cells.TwoDigitYearShift` | src/components/excelParse/csvDataService.js:71 | `Date.UTC` moves a date in the years 0 to 99 on by 1900 calendar years: 693960 days, one day more from 1 January to 29 February of year 0 |
| `Cells.YearFiftyBecomesNineteenFifty` | src/components/excelParse/csvDataService.js:71 | 0050-01-01T12:00Z gives 1950-01-01 |
| `Cells.NormalizeToDayIdempotent` | src/components/excelParse/csvDataService.js:69-72 | normalising twice is normalising once, the shifted years included |
| `Cells.CellToValue` | src/components/excelParse/csvDataService.js:85-91 | a plain value is kept, and taking `result` or `text` never changes the scalar a nested rich value finally holds |
| `Cells.CellToValueAgreesWithNormalizeTs` | src/components/excelParse/csvDataService.js:85-91 | unwrapping a cell first does not change its normalised timestamp |
| `Cells.CellNumbers` | src/components/excelParse/csvDataService.js:93-96 | a number reads as itself (also as a formula result), an empty cell as 0, a string through `Number`, an object without result or text as null |
| `Cells.ToNumberOrNull` | src/components/excelParse/csvDataService.js:93-96 | null exactly for an object, an Invalid Date, or a string `Number` does not read as a finite number; an empty cell is 0 |
| `Cells.HeaderNameSpec` | src/components/excelParse/csvDataService.js:79-80 | every header name is non-empty and trimmed; a blank header is `col_i`; any other is its trimmed text |
| `Cells.HeadersSpec` | src/components/excelParse/csvDataService.js:74-83 | the header names are one per header position after the hole, each non-empty and trimmed, `col_i` for a missing header |
| `Cells.HeadersFromWorksheet` | src/components/excelParse/csvDataService.js:74-83 | one name per header position after the hole, `vals.length - 1` in all, each non-empty and trimmed, `col_i` for a missing header |
| `Cells.FindColFrom` | src/components/excelParse/csvDataService.js:100-110 | the search from candidate `c` on returns the first column of the earliest matching candidate, or -1 |
| `Cells.FindCol` | src/components/excelParse/csvDataService.js:98-111 | `findColIndex` is the first match by candidate order, then column order, or -1 when no candidate matches any header |
| `Cells.FirstMatchUnique` | src/components/excelParse/csvDataService.js:98-111 | the first-match property determines the index |
| `Cells.FindColIndex` | src/components/excelParse/csvDataService.js:98-111 | the nested loop with early return computes exactly that index |
| `Cells.ExactMatchNeedsEqualLength` | src/components/excelParse/csvDataService.js:102-106 | a string candidate matches only a trimmed header of its own length, so never a longer name |
| `Cells.WipSizeScenario` | src/components/excelParse/csvDataService.js:106 | `"wip_size"` finds `WIP_Size` at either position and never selects `wip_size_avg` |
| `Cells.CandidateOrderWins` | src/components/excelParse/csvDataService.js:100-101 | when the first candidate matches column `i`, the result is at or before `i` and matches that candidate |
| `Window.FindIndexOf` | src/components/excelParse/csvDataService.js:185-186 | the first position whose trimmed, lower-cased text is the name, or -1 |
| `Window.ScanIsLastOccurrence` | src/components/excelParse/csvDataService.js:195-210 | after the scan, each variable holds the value of its last row (wafer starts 0 when not numeric), or is unset without such a row |
| `Window.ScanSummaryRows` | src/components/excelParse/csvDataService.js:195-210 | the row loop computes the scan |
| `Window.UnscannedRowsSetNothing` | src/components/excelParse/csvDataService.js:195-210 | the fold `Window.ScanRows` over rows that the callback skips, or whose variable is none of the three, leaves every variable unset |
| `Window.ResolveTimes` | src/components/excelParse/csvDataService.js:179-214 | "not found" exactly when the summary sheet is missing; never the invalid-window error, which comes later; on success the `variable` column was found |
| `Window.DayCount` | src/components/excelParse/csvDataService.js:220 | for UTC midnights `s <= e`, `Math.round((e - s) / 86400000) + 1` is exact: `(e - s) / day + 1 >= 1` |
| `Window.ParseWindow` | src/components/excelParse/csvDataService.js:178-222 | on success both ends are UTC midnights, start <= end, and `nDays` is the inclusive span, at least 1 |
| `Window.ParseWindowErrors` | src/components/excelParse/csvDataService.js:179-188 | each of the four errors is raised exactly in its own case: missing sheet, missing header, unresolved start or end, invalid or inverted window |
| `Window.WindowEndsFromLastRows` | src/components/excelParse/csvDataService.js:195-217 | on success the window starts on the UTC day of the last `start_time` row's normalised value and ends on that of the last `end_time` row |
| `Window.WaferStartsDefault` | src/components/excelParse/csvDataService.js:205-209 | wafer starts is the number in the last `wafers_starts` row, 0 without one or when not numeric |
| `Window.ParseSimulationWindow` | src/components/excelParse/csvDataService.js:178-222 | the method computes `ParseWindow`, so its windows have at least one day and span exactly `nDays` days |
| `Window.ParseWindowAsWritten` | src/components/excelParse/csvDataService.js:216-221 | the check as written: with valid dates the window has a day count and start <= end |
| `Window.AsWrittenAgreesOnValidDates` | src/components/excelParse/csvDataService.js:216-221 | as written and corrected agree whenever both dates are valid |
| `Window.StringDatesScenario` | src/components/excelParse/csvDataService.js:178-222 | start 2023-07-01 and end 2023-07-03 as strings, with 500 wafer starts, give a three-day window |
| `Window.SerialDatesScenario` | src/components/excelParse/csvDataService.js:57-60 | serial days 45108 to 45112 give a five-day window from 2023-07-01, and wafer starts 0 without a value |
| `Window.EpochMillisecondsAcceptedAsWritten` | src/components/excelParse/csvDataService.js:216-220 | dates given as epoch milliseconds pass the check as written with a NaN day count; the corrected check rejects them |
| `Series.AllKeysListed` | src/components/excelParse/csvDataService.js:119-158 | the key table lists every metric key once |
| `Series.NullSeries` | src/components/excelParse/csvDataService.js:163 | `new Array(len).fill(null)` has `len` slots, all null |
| `Series.InitSeriesStore` | src/components/excelParse/csvDataService.js:160-166 | every key gets its own fresh array of length `len`, all slots null |
| `Series.ValueColumn` | src/components/excelParse/csvDataService.js:225-238 | the value column is one past the first header match, and none when the sheet or every candidate is missing |
| `Series.Filled` | src/components/excelParse/csvDataService.js:224-249 | the corrected fill keeps the length, and a slot changes only when the sheet and column exist and the day's row is held |
| `Series.FilledSlots` | src/components/excelParse/csvDataService.js:224-249 | the fill keeps the length; with no sheet or column it changes nothing; otherwise slot `day` becomes the number of row `2 + day` when that row is present and keeps its value otherwise |
| `Series.FilledIdempotent` | src/components/excelParse/csvDataService.js:241-248 | filling twice is filling once |
| `Series.BuiltSeriesSlots` | src/components/excelParse/csvDataService.js:283-289 | a built series has `nDays` slots; slot `day` is the number in row `2 + day`, and null when the sheet or column is missing or the sheet holds no such row |
| `Series.DaysPastTheSheetStayNull` | src/components/excelParse/csvDataService.js:241-244 | with rows looked up by `findRow`, days beyond the sheet's rows stay null |
| `Workbook.GetRow` | src/components/excelParse/csvDataService.js:243 | `getRow` is the held row, or else a new empty row with the asked number, never undefined |
| `Workbook.GetRowNumber` | src/components/excelParse/csvDataService.js:244 | in a sheet whose rows carry their own numbers, `getRow(n).number` is `n`, so the guard at line 244 never fires |
| `Series.FilledAsWritten` | src/components/excelParse/csvDataService.js:241-248 | the fill as written keeps the length, and with a value column every day whose row the sheet does not hold reads 0 |
| `Series.FilledAsWrittenSlots` | src/components/excelParse/csvDataService.js:241-248 | the fill as written agrees with the corrected one on every day whose row the sheet holds and writes 0 on every other day; in a well-numbered sheet it writes every day |
| `Series.DaysPastTheSheetReadZeroAsWritten` | src/components/excelParse/csvDataService.js:241-247 | a day past the end of a short metric sheet reads 0 as written and stays null with `findRow` |
| `Series.EmptyCellReadsAsZero` | src/components/excelParse/csvDataService.js:245-247 | an empty cell in a present row gives 0, not null |
| `Series.FillDays` | src/components/excelParse/csvDataService.js:241-248 | the day loop writes the number of each row the sheet holds into its slot and keeps every other slot |
| `Series.FillSeriesFromSheet` | src/components/excelParse/csvDataService.js:224-253 | `store[key]` ends as the fill of its old contents; no other array is writable |
| `Series.BuildStore` | src/components/excelParse/csvDataService.js:283-289 | every key's fresh, distinct array holds its built series |
| `Series.FillAll` | src/components/excelParse/csvDataService.js:287-289 | after the key loop every key's array is its fill of what it held |
| `Series.KeyIndexOfPosition` | src/components/excelParse/csvDataService.js:119-158 | each key of the table sits at one position only |
| `Stream.WithoutMembers` | src/components/excelParse/csvDataService.js:323 | unsubscribing keeps exactly the callbacks other than `cb` |
| `Stream.WithoutCounts` | src/components/excelParse/csvDataService.js:323 | each other callback keeps its number of registrations; `cb` keeps none |
| `Stream.WithoutConcat` | src/components/excelParse/csvDataService.js:323 | the filter works piecewise, so the kept callbacks stay in order |
| `Stream.WithoutAbsent` | src/components/excelParse/csvDataService.js:323 | removing an unregistered callback changes nothing |
| `Stream.Without` | src/components/excelParse/csvDataService.js:323 | the filtered list is no longer than the old one and holds no registration of `cb` |
| `Stream.SubscribeThenUnsubscribe` | src/components/excelParse/csvDataService.js:320-325 | subscribing a new callback and calling its closure restores the registry |
| `Stream.Deliver` | src/components/excelParse/csvDataService.js:371 | one delivery per registration, in registration order |
| `Stream.NextTick` | src/components/excelParse/csvDataService.js:372-373 | the replay tick stays below `nDays` |
| `Stream.TickAfter` | src/components/excelParse/csvDataService.js:343 | every replay tick lies in `[0, nDays)` |
| `Stream.TicksCountUp` | src/components/excelParse/csvDataService.js:372-373 | the first `nDays` firings see ticks 0 to `nDays - 1`, the next one sees 0 |
| `Stream.ReplayIsPeriodic` | src/components/excelParse/csvDataService.js:372-373 | `nDays` firings later the tick is the same |
| `Stream.Clamp` | src/components/excelParse/csvDataService.js:387 | the clamp lies in `[lo, hi]`, keeps a value already inside, and gives `lo` below and `hi` above the range |
| `Stream.Mir` | src/components/excelParse/csvDataService.js:434 | the exit/start ratio is clamped to `[0, 2]`, and is 1 when nothing started |
| `Stream.SplitLots` | src/components/excelParse/csvDataService.js:426-428 | in production is never negative; idle, queued and in production sum to the WIP size whenever idle + queued fit |
| `Stream.SplitIsExactInDrawRanges` | src/components/excelParse/csvDataService.js:416-428 | with the draw ranges of the source the split is exact and leaves lots in production |
| `Stream.RandomFigures` | src/components/excelParse/csvDataService.js:416-440 | active tools is top plus bottom, the lots split adds up, and the rounded ratio lies in `[0, 2]` |
| `Stream.BaseDate` | src/components/excelParse/csvDataService.js:393-396 | the random base is the workbook start, else the given start date, else today's UTC midnight |
| `Stream.DayOf` | src/components/excelParse/csvDataService.js:402 | whole days after the base, Invalid when the base is invalid |
| `Stream.BuildOutcome` | src/components/excelParse/csvDataService.js:258-265 | the build fails with the load error or the window error, and succeeds only with a window of at least one day |
| `Stream.DataService.constructor` | src/components/excelParse/csvDataService.js:7-45 | module load: no listeners, no timer, no window, no store, `nDays` 0 |
| `Stream.DataService.GetSeriesStore` | src/components/excelParse/csvDataService.js:298-303 | null before the store is built; once ready, one array of `nDays` slots per key |
| `Stream.DataService.GetWindow` | src/components/excelParse/csvDataService.js:306-308 | once built, the window is `nDays >= 1` whole days from start to end |
| `Stream.DataService.GetSummary` | src/components/excelParse/csvDataService.js:311-313 | once ready, the summary holds the window's wafer starts |
| `Stream.DataService.Subscribe` | src/components/excelParse/csvDataService.js:320-321 | the callback is registered last |
| `Stream.DataService.Unsubscribe` | src/components/excelParse/csvDataService.js:322-324 | every registration of the callback is removed |
| `Stream.DataService.BuildSeriesStore` | src/components/excelParse/csvDataService.js:258-293 | on failure no state changes; on success window, summary and a fresh store of built series replace the old ones |
| `Stream.DataService.Install` | src/components/excelParse/csvDataService.js:265-291 | the assignments of a successful build, keeping the service invariant |
| `Stream.DataService.StartExcelStream` | src/components/excelParse/csvDataService.js:331-343 | nothing if a timer is set; with the store ready, starts at tick 0 and leaves window, summary and store as they were; otherwise builds, fails with the build error and no change, or installs the built window, summary and a fresh store of built series and starts at tick 0 |
| `Stream.DataService.ExcelPayload` | src/components/excelParse/csvDataService.js:346-369 | the payload of tick `t` carries the day `start + t` days, inside the window, and the store itself |
| `Stream.DataService.ExcelTick` | src/components/excelParse/csvDataService.js:344-374 | every listener, in order, gets the current tick's payload; the tick wraps at `nDays` and equals the tick after that many firings |
| `Stream.DataService.StartRandomBindingsStream` | src/components/excelParse/csvDataService.js:377-400 | nothing if a timer is set; otherwise starts at tick 0 from the base date |
| `Stream.DataService.RandomTick` | src/components/excelParse/csvDataService.js:400-508 | figures only when bindings are given; the random payload goes to every listener in order; the timer is released once `tick` reaches `maxTicks` |
| `Stream.DataService.StopStream` | src/components/excelParse/csvDataService.js:514-519 | afterwards there is no timer and no listener, whatever the state before |
| `Stream.StopTwice` | src/components/excelParse/csvDataService.js:514-519 | stopping twice is as harmless as once and leaves window and store alone |

## Left out

- Network and file I/O are not modelled: the `fetch` HEAD probe at module load, `fetchWorkbookBuffer`, and ExcelJS parsing. The build takes the parsed workbook, or the message of the error that stopped the load. `setRunFile` and `RUN_FILE` only choose what that I/O reads.
- Console logging is not modelled, and neither is the `getSeriesStore` warning.
- `setInterval`, `clearInterval` and `await` are not modelled. Each firing of an interval callback is an explicit method call, and `intervalMs` (default 1000) has no counterpart. The race where two starts are awaiting a build at once is concurrency.
- Stream.DataService.StartRandomBindingsStream: takes `maxTicks` as an explicit argument; the source's default of 100 when the option is left out has no counterpart.
- `Math.random`, `setHours` with a random local time of day, and the `toLocale…` formatting are not modelled. A payload carries the UTC day of its tick (`simDate`) and no formatted strings.
- The floating-point figures of random mode are not modelled: availability, performance, quality, OEE, capacity, target, the M/I weekly and inspection figures, and the active-tools percentage. The integer figures, the lots split and the ratio are modelled, with the ratio rounded to two decimals on exact reals.
- The individual `bindings.setX?.(…)` calls. `RandomTick` returns the figures the setters would receive, and only when bindings were given, without saying which setters exist.
- The following built-ins are `Host` parameters and are not interpreted: `Number(string)`, `new Date(string)`, `String` of a number or Date, and `RegExp.test`. The `lastIndex` state of a global pattern is not modelled, and the metric table has no pattern candidates.
- JsValues.Lower: `toLowerCase` maps ASCII letters only, so the length-changing and other non-ASCII mappings of JavaScript are not represented. `trim` uses the ECMAScript whitespace set.
- Cell numbers are exact reals. NaN and Infinity cell values and float rounding in the serial-day formula are not represented.
- Workbook.Values: a row's `values` is the hole followed by every cell up to the last non-empty one. That a row's cells end at a non-empty cell is a convention the model does not check; a row given with trailing empty cells gets extra `col_i` header names the reader would not produce. A new empty row gives `[hole]` where the library gives `[]`; no header name or column search tells the two apart.
- Workbook.GetRow: the library also adds the row it creates to the sheet. No later read in the service can tell, because a created row is empty and reads the same when it is fetched again.
- The optional `spec.post` hook is not modelled: no metric defines one.
- Stream.BaseDate: the fallback takes today's UTC year, month and day from the one `nowMs` passed in. Line 396 calls `new Date()` three times, once for each of them, so a call that straddles midnight can mix two days, even two months. That is not modelled.
- Callbacks are identities. What a listener does with its payload, including calling back into the service, is not modelled.
- Series.FillSeriesFromSheet: requires that `nDays` equals the array's length, which its only caller guarantees. JavaScript's growth of an array written past its end is not modelled.
- Stream.DataService.BuildSeriesStore: requires that no timer is set, which is true at its only call site, inside `startExcelStream` after the timer check.
- Window.ParseWindow: is the corrected window check (see Findings), which rejects an Invalid Date. The as-written check is `Window.ParseWindowAsWritten`.
- Window.ParseSimulationWindow: computes the corrected `Window.ParseWindow`.
- Window.ParseWindowErrors: its `InvalidWindow` case covers Invalid Dates, following the corrected check.
- Stream.BuildOutcome: uses the corrected window check, so an Invalid Date gives `WindowFailed(InvalidWindow)`. As written, the source's build throws a RangeError from `toISOString` (line 276) instead.
- Stream.DataService.BuildSeriesStore: "no state changes on failure" holds for the corrected window check. As written, an Invalid Date window gets through, and lines 266-272 overwrite the window, `waferStarts` and `SUMMARY` before the throw at line 276. This partial update is not modelled.
- Stream.DataService.StartExcelStream: inherits the corrected window check and the corrected row lookup through `BuildSeriesStore`.
- Series.FillDays: looks rows up with `findRow`, the corrected lookup (see Findings). As written, `getRow` makes a day with no row read 0. The as-written fill is `Series.FilledAsWritten`.
- Series.FillSeriesFromSheet, Series.FillAll, Series.BuildStore, Series.BuiltSeriesSlots and Series.DaysPastTheSheetStayNull: follow the corrected row lookup of `Series.FillDays`.
- Series.FilledSlots and Series.Filled: describe the corrected fill, which keeps a slot on a day whose row the sheet does not hold. As written, every such day reads 0 (`Series.FilledAsWrittenSlots`).
- The mock data services and the React components are not part of this model.

## Findings

| source | as written | input that shows it | evidently intended | confidence | as-written member | corrected member |
|---|---|---|---|---|---|---|
| src/components/excelParse/csvDataService.js:216-221 | `if (!s \|\| !e \|\| s > e)` is false for an Invalid Date, since a Date object is truthy and NaN compares false. The window is returned with `nDays` NaN, and `buildSeriesStore` then throws a RangeError after it has already overwritten the window state | `start_time`/`end_time` cells holding epoch milliseconds (1688169600000, 1688342400000), read as serial days far outside the Date range | reject the window as "Invalid start/end dates" | medium, not executed | `Window.ParseWindowAsWritten`, `Window.EpochMillisecondsAcceptedAsWritten` | `Window.ParseWindow`, `Window.ParseSimulationWindow` |
| src/components/excelParse/csvDataService.js:243-247 | `ws.getRow(rowNumber)` never returns undefined: the row library then creates an empty row carrying `rowNumber`. So `!row \|\| row.number !== rowNumber` never skips a day, and a day the sheet holds no row for reads `Number(null)`, which is 0 | a `Capacity_Daily` sheet with a header row and 2 data rows, and a window of `nDays` = 5: slots 2 to 4 of each of its series become 0 | skip the days the sheet holds no row for and leave their slots null, as the guard sets out to do (`ws.findRow(rowNumber)`) | medium, not executed | `Series.FilledAsWrittenSlots`, `Series.DaysPastTheSheetReadZeroAsWritten` | `Series.FillDays`, `Series.FilledSlots`, `Series.DaysPastTheSheetStayNull` |
