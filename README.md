# Daily Lifestyle Tracker — a verified model

The Daily Lifestyle Tracker is a single-page Streamlit app (`app.py`). It
follows a 30-week healthy-living program that starts on Monday 2 June 2025.
The operator logs one record per day: treadmill minutes, steps, lunch-walk
minutes, a strength-training box (offered from week 3 on), weight, blood
sugar and a mood note. The records are kept in a dictionary keyed by ISO
date strings. The app has four views:

- the **daily entry** form, which loads the stored record, saves a new one
  and lists the seven most recent entries;
- the **weekly summary**: the seven dates of a chosen program week, their
  summary and a day-by-day breakdown;
- the **monthly summary**: the months that have records, the chosen month's
  summary and a per-week trend table;
- the **all-time summary**: program progress and a trend chart of every day.

The views share two pieces of computation. The calendar maps a date to its
clamped program week. The aggregator (`get_summary_stats`) turns any
collection of records into totals, averages and weight statistics.

This project models those computations in Dafny:

- `calendar.dfy`: the program window, the week number and the week-3
  strength gate. A date is a day ordinal (days since 1970-01-01), and a
  proved civil-date conversion ties ordinals to calendar dates.
- `records.dfy`: daily records and the store. The dictionary is a sequence
  of entries in insertion order with distinct keys. It provides lookup,
  selection of the entries for a list of dates, and the chronological
  listing (`sorted(data.items())`).
- `ordering.dfy`: sorting of integer keys.
- `aggregator.dfy`: `get_summary_stats`, as a specification function and
  as a method with the source's loop.
- `daily_entry.dfy`: the date picker, the form defaults, the record a
  submission builds, and the store update in a `Tracker` class. It also
  models the recent-entries list.
- `weekly_view.dfy`, `monthly_view.dfy` and `alltime_view.dfy`: the three
  summary views. Each loop of the source is a method proved against a
  specification function.

Two behaviours of the code differ from what a reader of the app's
description might expect. In both places the model follows the code:

- For an empty collection the aggregator returns an empty dictionary, not
  a summary of zeros. `Summarize` returns `None` for it.
- "Latest weight" and "weight change" follow the dictionary's iteration
  order, which is insertion order, not date order.
  `ExampleLatestFollowsInsertionOrder` shows the difference.

## Model

| member | source | states |
|---|---|---|
| Calendar.ProgramInfo | app.py:43-46 | the window starts at ordinal 20241, which is 2025-06-02, and ends 210 days later, on 2025-12-29 |
| Calendar.AnchorDates | app.py:44-45 | the start and end ordinals convert to the civil dates 2025-06-02 and 2025-12-29 |
| Calendar.CivilFromDays | app.py:356-357 | the year and month of a date: the month is always in 1..12 and the day in 1..31 |
| Calendar.CivilRoundTrip | app.py:369-370 | converting an ordinal to a civil date and back returns the same ordinal, so distinct dates have distinct civil dates |
| Calendar.CivilDayInMonth | app.py:356-357 | the day of an ordinal's civil date never exceeds the length of its month, leap years included, so the month read off a date is its true month |
| Calendar.WeekStart | app.py:275 | the first day of week w is a whole number of weeks after the start, and for w in 1..30 its seven days lie inside the program window |
| Calendar.WeekNumber | app.py:49-56 | the week is always in 1..30; dates before the start are week 1, dates from week 30's first day on are week 30, and otherwise it is the floor of the day difference over 7, plus 1 |
| Calendar.WeekNumberRange | app.py:54-56 | week w is exactly the seven days starting at its first day; week 1 also takes every earlier date and week 30 every later one (both directions) |
| Calendar.WeekStartIsFirstDay | app.py:54-56 | the first day of week w has week number w, and the day before it has week number w - 1 |
| Calendar.WeekNumberMonotonic | app.py:54-56 | a later date never has an earlier week |
| Calendar.IsStrengthAvailable | app.py:59-61 | strength training is available exactly from the 15th program day on (both directions) |
| Ordering.Sort | app.py:243 | the result is strictly ascending and has exactly the input's elements; with distinct inputs it is as long as the input |
| Records.DayExercise | app.py:317-319 | a day's composite is treadmill + steps / 100 + lunch walk (missing fields as 0), and it is never negative when the fields are not |
| Records.Lookup | app.py:285-286 | a found record is stored under that key; nothing is found exactly when the key is absent |
| Records.SelectDates | app.py:281-286 | every selected entry has one of the requested dates and is the store's record for it |
| Records.SelectDatesExact | app.py:281-286 | an entry is selected exactly when it is stored and its date was requested (both directions) |
| Records.SelectDatesIncreasing | app.py:281-286 | ascending requested dates give entries in ascending date order |
| Records.SelectDatesDistinct | app.py:281-286 | requesting distinct dates gives entries with distinct keys |
| Records.LookupSelected | app.py:315-316 | for a requested date, the selection answers a lookup as the store does |
| Records.Chronological | app.py:453 | every listed entry is the store's record for its date, and the dates ascend strictly |
| Records.ChronologicalSpec | app.py:453 | the sorted listing is a reordering of the store: the same entries, as many, in strictly ascending date order |
| Aggregator.TotalsOf | app.py:68-72 | the day count is the number of records, which bounds the strength sessions |
| Aggregator.Average | app.py:93-104 | with a positive count the average times the count is the total; otherwise it is 0 |
| Aggregator.Readings | app.py:78-88 | the collected readings are all positive and never outnumber the inputs |
| Aggregator.ReadingsMembers | app.py:81-88 | a value is collected exactly when some record holds it and it is positive (both directions) |
| Aggregator.Assemble | app.py:90-105 | the summary reports the given totals, the composite exercise total, per-day averages when there are days, the means of the weight and blood-sugar readings (0 without readings), and no weight change with at most one weight |
| Aggregator.Summarize | app.py:64-105 | the result is empty exactly for no records; otherwise the day count is the number of records, strength sessions are at most the days, every average is its total divided by the day count, the exercise total is treadmill + steps / 100 + lunch walks, the day count, the treadmill, steps and lunch-walk totals (missing or null read as 0) and the strength sessions are exactly the record totals `TotalsOf`, and the average weight and average blood sugar are the means of the positive values present (0 when there are none) |
| Aggregator.GetSummaryStats | app.py:64-105 | the loop-built result equals `Summarize` of the store's records in iteration order |
| Aggregator.TotalsAppend | app.py:68-72 | the totals of a concatenation are the sum of the parts' totals |
| Aggregator.ExerciseIsSumOfDays | app.py:75 | the composite of the totals equals the sum of the per-day composites |
| Aggregator.SummaryExercise | app.py:75-99 | total and average exercise time are the sum and the mean of the per-day composites |
| Aggregator.StrengthCount | app.py:72 | the sessions equal the day count exactly when every day has strength training, and are 0 exactly when none has |
| Aggregator.StrengthSessionsCount | app.py:72 | the strength sessions are the number of days whose strength box is set |
| Aggregator.NoWeightStatistics | app.py:101-104 | with no positive weight, average, latest weight and change are all 0 |
| Aggregator.NoBloodSugarStatistics | app.py:103 | with no positive blood sugar, the blood-sugar average is 0 |
| Aggregator.LatestWeightIsLastReading | app.py:102 | the latest weight is the last positive weight in iteration order |
| Aggregator.WeightChangeIsLastMinusFirst | app.py:104 | the weight change is the last positive weight minus the first |
| Aggregator.SingleWeightNoChange | app.py:101-104 | a single weight reading is both the average and the latest weight, and the change is 0 |
| Aggregator.NonReadingWeightIsAbsent | app.py:82-84 | a zero, negative or null weight leaves the summary unchanged, as if it were null, whatever the record's other fields |
| Aggregator.NonReadingBloodSugarIsAbsent | app.py:86-88 | a zero, negative or null blood sugar leaves the summary unchanged, as if it were null, whatever the record's other fields |
| Aggregator.ExampleWeights | app.py:101-104 | weights 70 and 68.5, plus one day without a weight, give average 69.25, latest 68.5 and change -1.5 |
| Aggregator.ExampleLatestFollowsInsertionOrder | app.py:81-104 | when a later day is inserted first, the earlier day's weight is reported as the latest |
| DailyEntry.DefaultEntryDate | app.py:136-141 | the picker opens on today when today lies between the start and `end_date` inclusive, otherwise on the start; the opening date is always one the picker admits |
| DailyEntry.DefaultEntryDateOnEndDate | app.py:136-141 | on `end_date` itself the picker opens on a date outside the thirty program weeks |
| DailyEntry.DefaultProgramDate | app.py:136-141 | restricted to the thirty weeks, the picker opens on today when today is a program day, otherwise on the start, and always on a program day |
| DailyEntry.InDatePickerWeek | app.py:144 | on a program day the week number is the floor of the day difference over 7, plus 1, without clamping |
| DailyEntry.FormDefaults | app.py:155-219 | a new date's form shows 0, false and an empty note; a stored date's form shows the stored fields |
| DailyEntry.PositiveOrNull | app.py:232-233 | a weight or blood sugar is stored exactly when it is positive, and then unchanged |
| DailyEntry.MakeRecord | app.py:181-235 | the record carries the date and its week number and the exercise and mood inputs as entered; strength is set only when checked and the date is from day 15 on; weight and blood sugar are kept only when positive |
| DailyEntry.ResubmitUnchanged | app.py:155-235 | reopening a saved date and submitting the untouched form stores the same record again |
| DailyEntry.MakeRecordWeek | app.py:144-227 | for a date before `end_date`, a stored record's week is the unclamped week of its date |
| DailyEntry.Upsert | app.py:225 | the saved key now holds the new record, every other key keeps its record, and the store grows exactly when the key is new |
| DailyEntry.UpsertNewKey | app.py:225 | a new key is appended after all existing entries |
| DailyEntry.UpsertKeepsOrder | app.py:225 | re-saving an existing key keeps the keys and their order |
| DailyEntry.UpsertDistinct | app.py:225 | saving keeps the keys distinct |
| DailyEntry.UpsertIdempotent | app.py:225 | saving the same record twice is the same as saving it once |
| DailyEntry.UpsertSame | app.py:225 | saving the record a key already holds changes nothing |
| DailyEntry.Tracker.FormFor | app.py:155-219 | a date without a record gets 0, false and an empty note; a stored date gets the fields of its stored record |
| DailyEntry.Tracker.constructor | app.py:39-40 | the session store starts out holding what was loaded |
| DailyEntry.Tracker.SaveEntry | app.py:223-235 | the store becomes the update of the old store with the submitted record; that date holds it, other dates are unchanged, and the keys stay distinct |
| DailyEntry.LastSevenReversed | app.py:243 | it holds min(7, n) entries, the last entries of the listing, last first |
| DailyEntry.LastSevenSpec | app.py:243 | from an ascending listing, the recent list is strictly descending, drawn from the listing, and everything left out is older |
| DailyEntry.RecentEntries | app.py:243 | at most seven entries, each the store's record for its date, in strictly descending date order |
| DailyEntry.RecentEntriesSpec | app.py:243 | the recent list holds min(7, n) stored entries in strictly descending date order, and every entry left out is older than all of them |
| WeeklyView.WeekDates | app.py:274-283 | week w has seven consecutive dates from its first day, ascending and distinct |
| WeeklyView.WeekDatesMember | app.py:275-283 | a date is among the week's dates exactly when it lies within the week's seven days |
| WeeklyView.WeekDatesPartition | app.py:275-283 | a program day is in week w's view exactly when w is its week number |
| WeeklyView.WeekDatesHaveWeek | app.py:275-283 | every date of a program week's view has that week number |
| WeeklyView.WeekData | app.py:281-286 | the loop-built week data equals the selection of the week's seven dates |
| WeeklyView.WeekDataSpec | app.py:281-286 | the week data holds exactly the stored entries dated within the week, with distinct keys, in ascending date order |
| WeeklyView.SavedDayInItsWeek | app.py:281-286 | a record saved on a program day appears in the view of that day's week |
| WeeklyView.EndDateInNoWeek | app.py:136-141 | `end_date` is pickable and numbered week 30, but a record saved on it appears in no week view |
| WeeklyView.BreakdownRow | app.py:315-340 | the row is for the given date and has data exactly when that date has a record; a data row shows the record's treadmill, steps and lunch walk (missing as 0), its per-day composite exercise, its strength box and the shown weight |
| WeeklyView.ShownWeight | app.py:328 | the weight column shows a weight exactly when it is present and non-zero |
| WeeklyView.DailyBreakdown | app.py:309-340 | the loop builds one row per day of the week, each equal to the row for that date |
| WeeklyView.RowsMatchSelection | app.py:309-340 | the rows with data count the selected entries, and their "Total Exercise" values add up to those entries' composite exercise |
| WeeklyView.BreakdownAgreesWithSummary | app.py:288-340 | the breakdown has 7 rows, one with data for each logged day, and its exercise column adds up to the week summary's total exercise time |
| MonthlyView.KeyMonth | app.py:357 | a month key decodes to a month in 1..12 that encodes back to the same key |
| MonthlyView.AvailableMonths | app.py:356-357 | no more months than entries, none exactly when the store is empty, each month in 1..12 |
| MonthlyView.AvailableMonthsOrdered | app.py:357 | the month list is strictly ascending in calendar order, so no month repeats |
| MonthlyView.AvailableMonthsExact | app.py:356-357 | the month list names exactly the months that have a record (both directions) |
| MonthlyView.ListedMonthHasData | app.py:364-374 | a month picked from the list always has data, so its summary exists |
| MonthlyView.FilterMonth | app.py:367-371 | every kept entry is stored and dated in the selected year and month, and none is added |
| MonthlyView.MonthData | app.py:367-371 | the loop-built month data equals the month filter of the store |
| MonthlyView.FilterMonthMembers | app.py:367-371 | an entry is in the month data exactly when it is stored and dated in that month |
| MonthlyView.FilterMonthAppend | app.py:367-371 | filtering keeps iteration order: it distributes over concatenation |
| MonthlyView.EntryWeek | app.py:397 | a stored week is used as it is; without one, the week number of the key's date, which is in 1..30 |
| MonthlyView.GroupByWeek | app.py:395-400 | every record's week is a key, and every group is non-empty and no larger than the month |
| MonthlyView.GroupWeeks | app.py:395-400 | the loop-built grouping equals the week grouping of the month data |
| MonthlyView.GroupByWeekSpec | app.py:395-400 | a week is a key exactly when some record has that week; its group is that week's records in iteration order and is never empty |
| MonthlyView.WeekOrder | app.py:403 | the trend weeks are ascending and are exactly the grouping's keys |
| MonthlyView.DayKeyed | app.py:404 | re-keying a group by position keeps its records and their order |
| MonthlyView.TrendRow | app.py:403-407 | the row carries its week and the summary of that week's group |
| MonthlyView.TrendRows | app.py:402-413 | one row per requested week, in the requested order, each the row of its week |
| MonthlyView.WeeklyTrends | app.py:402-413 | one row per week that occurs, in ascending week order, each holding the summary of that week's group; no rows exactly when the month has no data |
| MonthlyView.WeeklySummary | app.py:402-413 | the loop-built trend table has one row per week, in order, each holding the summary of that week's group |
| MonthlyView.PartitionTotals | app.py:395-400 | the groups partition the month: their totals add up to the month's totals |
| MonthlyView.TrendsAddUpToMonth | app.py:374-413 | the trend rows' days, exercise totals and strength sessions add up to the month summary's |
| AllTimeView.ProgramProgress | app.py:435 | progress is the day count as a percentage of 210 days |
| AllTimeView.ProgressAtMostFull | app.py:435 | when every key is a date of the thirty weeks, there are at most 210 days and progress is at most 100% |
| AllTimeView.ProgressExceedsFullAsWritten | app.py:435 | one record for each of the 211 dates the picker admits as written gives progress above 100% |
| AllTimeView.SameEntriesSameTotals | app.py:68-72 | two stores with the same entries, in any order, have the same totals |
| AllTimeView.ChronologicalTotals | app.py:453 | the sorted listing has the store's totals |
| AllTimeView.PointOf | app.py:454-464 | a chart point carries the entry's date, its treadmill, steps and lunch walk (missing as 0), its weight (null when absent) and its composite exercise |
| AllTimeView.ChartPoints | app.py:452-464 | one point per entry of the sorted listing, in strictly ascending date order, each carrying its stored day's weight and composite exercise |
| AllTimeView.ChartData | app.py:452-464 | the loop-built chart equals one point per entry of the sorted listing |
| AllTimeView.BuildChart | app.py:453-464 | the loop gives one point per item, in the items' order |
| AllTimeView.ChartListsEveryDay | app.py:453-464 | the chart has one point per stored day, in strictly ascending date order, and shows every stored day |
| AllTimeView.ChartExerciseMatchesSummary | app.py:426-456 | the chart's "Total Exercise" column adds up to the all-time total exercise time |
| AllTimeView.WeightTrend | app.py:477 | the weight trend holds exactly the chart points that have a weight |
| AllTimeView.WeightTrendAppend | app.py:477 | filtering distributes over concatenation, so the kept points stay in their order and none is repeated |
| AllTimeView.WeightTrendOrdered | app.py:477 | points in ascending date order give a weight trend in ascending date order |

## Left out

- Streamlit rendering is not modelled: page layout, widgets, metrics, messages, expanders and text formatting (`:.1f`, `%B %d`, emoji).
- The JSON load and save (`load_data`, `save_data`), the file system and the export button are not modelled. The store starts from whatever was loaded; that is the `Tracker` constructor's argument.
- `main` and the view selection are left out. They only dispatch to the views.
- `date.today()` is a parameter of `DefaultEntryDate`, because the model has no clock.
- Date strings and `strptime`/`strftime` are replaced by day ordinals. ISO date strings sort in the same order as ordinals, so sorting keys is modelled as sorting ordinals.
- Floating point is modelled as exact reals. This matters for the progress percentage, the averages and `steps / 100`.
- The widgets' bounds are not modelled: treadmill at most 300, steps at most 50000 in steps of 100, lunch walk at most 120, weight at most 300, blood sugar at most 500, and the 256-character mood limit. The form input is an unconstrained `FormInput`.
- The treadmill and lunch-walk widgets yield integers in the source, but the model keeps them as reals.
- A key that is missing and a key that is null are not told apart; both are `None`. Every sum reads either as 0, following `data.get(f, 0) or 0`.
- WeeklyView.BreakdownRow: also reads a missing or null field as 0. The source's `data.get(f, 0)` here would raise a TypeError on a null field, but the app itself never stores null exercise fields.
- AllTimeView.PointOf: reads a missing or null exercise field as 0 as well, where the source would raise a TypeError on a null one. The program never writes such a record.
- MonthlyView.EntryWeek: a stored week of null is treated like a missing week, which recomputes the week from the date. The source would group such a record under the key `None`, and `sorted(weekly_data.items())` would then raise a TypeError whenever the same month also has a record with a numeric week, so the trend table would not be shown.
- The rendering of the recent-entries list is not modelled. Only which entries it shows, and in what order, is modelled.
- The trends section is shown only when the store holds more than one record (`len(...) > 1`). The model does not include this guard. `ChartData` builds the chart for any store, including a store with one record, where the source shows no chart.
- The pandas frames are not modelled. Both chart calls and the weight-trend filter are modelled on sequences of points.

## Findings

| source | as written | input that shows it | evidently intended | confidence | as-written member | corrected member |
|---|---|---|---|---|---|---|
| app.py:136-141 | the picker's `max_value=end_date` is inclusive, so `end_date` (2025-12-29, 210 days after the start) can be picked. It is numbered week 30, but no week view's seven dates include it, and storing all 211 pickable dates shows a progress above 100% | open the app on 2025-12-29, or pick that date, and save; or save every date from 2025-06-02 to 2025-12-29 | the picker spans the 210 days of the thirty weeks, `start_date <= d < end_date` | not executed | DailyEntry.DefaultEntryDateOnEndDate, WeeklyView.EndDateInNoWeek, AllTimeView.ProgressExceedsFullAsWritten | DailyEntry.DefaultProgramDate, DailyEntry.MakeRecordWeek, WeeklyView.SavedDayInItsWeek, AllTimeView.ProgressAtMostFull |
