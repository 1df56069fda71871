# Bikeshare query tool — a Dafny model

`bikeshare.py` is an interactive command-line tool for exploring the US
Bikeshare trip data of three cities (Chicago, New York city, Washington DC).
On each query it:

1. asks for a city and a filter option (by month, by weekday, both or none);
2. loads the city's trips and keeps those of the chosen month and/or weekday;
3. prints summary statistics: the busiest month, weekday and start hour, the
   most used stations and journey, the total and mean trip duration, and the
   rider distributions;
4. offers to page through the selected rows, five at a time;
5. asks whether to start a new query.

This project models that logic in Dafny and proves what it does.

- **Input.** What the user types is a sequence of strings together with a
  read position. Each prompt that asks again after an invalid answer is a
  read-until-valid loop over that sequence (`Prompts.ReadUntilValid`),
  specified by `Prompts.FirstValid`. Running out of input, Python's
  `EOFError`, is the `Exhausted` result.
- **Trips.** A trip is a `TripData.Trip` record. It already carries the
  values pandas derives from its start time: the month number, the weekday
  name and the hour.
- **Data frame.** The frame is the class `TripData.Frame`. The operations
  that change it in place, adding columns and narrowing the rows, are
  methods with `modifies` clauses.
- **Statistics.** The summary statistics are functions over the selected
  rows (module `Stats`).
- **Pager.** The pager is a loop over the page index (module `Pager`),
  specified by the recursive function `Pager.Paging`.

The files are:

- `wrappers.dfy`: `Option`.
- `text.dfy`: ASCII case mapping, `str.title()`, decimal numbers, and the
  text of a `datetime.timedelta` together with its parser.
- `calendar.dfy`: the English `calendar` tables and the helpers
  `weekday_num2str`, `month_abbr2name` and `month_num2name`.
- `prompts.dfy`: the prompts and `get_filters`.
- `trip_data.dfy`: trips, the frame, and the filter step of
  `update_df_columns`.
- `stats.dfy`: `time_stats`, `station_stats`, `trip_duration_stats`,
  `user_stats` and `print_summary_stats`.
- `pager.dfy`: `print_bikeshare_df_page` and `get_pager_input`.
- `session.dfy`: `load_data` and the loop of `main`.

## Model

| member | source | states |
|---|---|---|
| Text.TitleCaseMatches | bikeshare.py:206-207 | For three characters and a table abbreviation, `title()` gives the abbreviation exactly when the characters spell it in any mix of cases. |
| Text.DecimalRoundTrip | bikeshare.py:435 | `str(n)` of a natural number reads back as `n`. |
| Text.ClockRoundTrip | bikeshare.py:486-491 | The `timedelta` text of `s` seconds reads back as exactly `s` seconds. |
| Text.ClockShape | bikeshare.py:486-491 | The text ends in `H:MM:SS`. The minutes and seconds are two digits each and below 60. The hours are below 24 and have no leading zero. A day count comes first exactly when `s` is at least a day, and it reads back as the number of whole days. |
| Text.ClockExamples | bikeshare.py:486-491 | 180 s is shown as `0:03:00` and 60 s as `0:01:00`. 90061 s is shown as `1 day, 1:01:01`: the hours wrap at a day. |
| Calendar.WeekdayNum2Str | bikeshare.py:28-38 | Takes a weekday abbreviation, not a number. Returns the full name at the same position, and that name begins with the abbreviation. |
| Calendar.MonthAbbr2Name | bikeshare.py:41-52 | Returns `None` for every argument: the bare `return` makes line 52 dead code. |
| Calendar.MonthNum2NameOffByOne | bikeshare.py:55-65 | For months 1..12 the result is never the month's own name. Month 1 gives `""` and month `m` gives the name of month `m-1`. |
| Calendar.MonthNumber | bikeshare.py:380-382 | The month number is in 1..12, and the abbreviation at that position is the title-cased month. |
| Prompts.FirstValid | bikeshare.py:184-187 | Reprompting returns the parse of the first accepted input. Every input before it was rejected. With no accepted input, the input runs out. |
| Prompts.ReadUntilValid | bikeshare.py:184-187 | The loop returns exactly what `FirstValid` specifies. |
| Prompts.CityChoice | bikeshare.py:175-183 | A first character `c`/`C`, `n`/`N` or `w`/`W` gives Chicago, New York city or Washington DC respectively. Anything else, including empty input, is rejected. |
| Prompts.FilterChoice | bikeshare.py:230-232 | Accepted exactly when the first character is one of `mdnbMDNB`. The result is that character lower-cased. |
| Prompts.MonthChoiceMeaning | bikeshare.py:206-208 | A month answer is accepted as `a` exactly when its first three characters are `a`, ignoring case. |
| Prompts.DayChoiceMeaning | bikeshare.py:251-253 | A weekday answer is accepted as `a` exactly when its first three characters are `a`, ignoring case. |
| Prompts.ViewChoice | bikeshare.py:273-276 | An empty answer or a first character `y`/`Y` means view. A first character `s`/`S` means skip. Anything else is rejected. |
| Prompts.InputCity | bikeshare.py:162-188 | The city of the first accepted answer. It is always one of the three cities. |
| Prompts.InputFilterOpt | bikeshare.py:215-236 | The option of the first accepted answer. It is always one of `m`, `d`, `n`, `b`. |
| Prompts.InputMonth | bikeshare.py:191-212 | The month of the first accepted answer. It is always one of `Jan`..`Dec`. |
| Prompts.InputDayOfWeek | bikeshare.py:239-257 | The weekday of the first accepted answer. It is always one of `Mon`..`Sun`. |
| Prompts.ConfirmDfView | bikeshare.py:260-279 | A first answer that is accepted gives view or skip. After an answer that is rejected, the prompt reads on until an accepted one, and the result is then `None`, whatever that answer was. |
| Prompts.FiltersFrom | bikeshare.py:282-323 | A city from the three and a filter option are read first. The month is `"all"` or one of `Jan`..`Dec`, and the day is `"all"` or one of `Mon`..`Sun`. |
| Prompts.FiltersFromRunsOut | bikeshare.py:282-323 | `get_filters()` runs out of input exactly when one of its reads does: the city, the option, the weekday for `d` and `b`, the month for `m`, or for `b` the month after the weekday answer. When every read it needs finds an answer, it returns the filters. |
| Prompts.FiltersFromOptions | bikeshare.py:296-323 | When `get_filters()` returns, the city is the first accepted city answer and the option the first accepted option after it. `n` gives `"all"` for both and reads nothing more. `d` takes the next accepted weekday, and `m` the next accepted month. `b` takes the weekday and then the month after it. |
| Prompts.GetFilters | bikeshare.py:282-323 | Returns exactly what `FiltersFrom` gives. The city is the first accepted city answer, and the option the first accepted option after it. `n` leaves month and day as `"all"` and reads nothing more. `d` takes the day from the next accepted weekday answer, and `m` takes the month from the next accepted month answer. `b` reads the weekday first, then the month after it. |
| Prompts.InvalidThenChicago | bikeshare.py:175-187 | The answers `x` then `c` select Chicago after two inputs. |
| TripData.FilterSubsequence | bikeshare.py:384 | A boolean-mask selection keeps rows in their original order. |
| TripData.FilterTwice | bikeshare.py:380-389 | Selecting by month and then by weekday gives the same rows as selecting by both at once. |
| TripData.FilteredRowsMeaning | bikeshare.py:380-390 | The view holds exactly the rows whose month number and weekday name match, each as often as in the data, in data order. `("all", "all")` keeps every row. |
| TripData.Frame.AddColumn | bikeshare.py:377-378 | Adding a column appends its name if it is new. The rows are unchanged. |
| TripData.UpdateDfColumns | bikeshare.py:352-390 | Adds `Month Number` and `Weekday Name`. Leaves the frame holding the filtered rows. |
| Stats.ValueCounts | bikeshare.py:95 | The keys are the values that occur, and each maps to its number of occurrences. |
| Stats.Mode | bikeshare.py:415 | `idxmax()` of the value counts is a value that occurs and that no value outnumbers. |
| Stats.ModeIsIdxMax | bikeshare.py:466 | The mode is a key of the value counts with the largest count. |
| Stats.HourLabel | bikeshare.py:429-435 | The label ends in ` am` before noon and ` pm` from noon on. Before the suffix come decimal digits whose value is the hour itself up to 12 and the hour minus 12 after that, so always in 0..12. Those digits are `str()` of that number, with no leading zero. |
| Stats.HourLabelRoundTrip | bikeshare.py:429-435 | The 12-hour label of any hour 0..23 names that hour: no two hours share a label. |
| Stats.TimeStatsOf | bikeshare.py:393-435 | The busiest month appears only without a month filter, and is `month_num2name` of a modal month. The busiest weekday appears only without a day filter and is modal. The busiest hour is the label of a modal hour. |
| Stats.JourneyKey | bikeshare.py:463-465 | The journey key splits back into the start station, ` to `, and the end station. |
| Stats.StationStatsOf | bikeshare.py:440-469 | The start station, end station and journey are modal. The journey is the key of some trip. |
| Stats.RoundHalfEven | bikeshare.py:490 | Rounds to the nearest integer, and a tie to the even one. |
| Stats.DurationStatsOf | bikeshare.py:472-493 | The total is the `timedelta` text of the sum of durations and reads back as that exact sum. The mean is the text of the sum divided by the count, rounded half-to-even, and reads back as an integer within half a second of the true mean. |
| Stats.Present | bikeshare.py:95-96 | Dropping the empty cells keeps every present value exactly as often as it occurs in the column. |
| Stats.ThreeOneMinuteTrips | bikeshare.py:486-491 | Three 60-second trips give total `0:03:00` and mean `0:01:00`. |
| Stats.ColumnDistribution | bikeshare.py:82-100 | A missing column gives the "no data available" notice. Otherwise the counts cover exactly the values present, and each count is the number of times that value occurs. |
| Stats.BirthYearStatsOf | bikeshare.py:523-535 | Without the column, the "no rider age data" notice. Otherwise oldest ≤ most common ≤ youngest, every present year lies between the oldest and the youngest, and the most common year is modal. |
| Stats.UserStatsOf | bikeshare.py:496-535 | User type, gender and weekday give a notice exactly when their column is missing, and otherwise their value counts. Then the birth years. |
| Stats.TimeStats | bikeshare.py:393-437 | Adds `Start Hour`, keeps the rows, and returns `TimeStatsOf`. |
| Stats.StationStats | bikeshare.py:440-469 | Adds `Start+End Stations`, keeps the rows, and returns `StationStatsOf`. |
| Stats.PrintSummaryStats | bikeshare.py:538-557 | The four groups in order. The rider group sees the columns the first two added. |
| Pager.KeyOf | bikeshare.py:147-153 | Empty input means forward, `b` back and `q` quit. Case matters, so `B` and `Q` are rejected. |
| Pager.Step | bikeshare.py:148-154 | Forward adds 5 to the index, back subtracts 5, and quit gives `None`. |
| Pager.GetPagerInput | bikeshare.py:129-159 | The step of the first recognised key. Unlike `confirm_df_view`, the recursive result is kept. |
| Pager.Paging | bikeshare.py:103-126 | Reads only forward through the input. Stopping other than at the end of the frame happens only after a page was shown. |
| Pager.PrintBikeshareDfPage | bikeshare.py:103-126 | The loop shows the pages, and stops, exactly as `Paging` specifies. |
| Pager.PagesStayInside | bikeshare.py:118-121 | Starting from a multiple of 5, every page starts at a non-negative multiple of 5 and ends before the last row. The last row is never printed. |
| Pager.EndOfFrameExactly | bikeshare.py:118-126 | A page is printed exactly when the clamped index is below `len - 5`. Otherwise the pager ends. |
| Pager.ShortFrameShowsNothing | bikeshare.py:120 | A frame of at most five rows prints no rows. |
| Pager.BackOnFirstPage | bikeshare.py:118-119 | `b` on the first page shows the first page again. |
| Pager.TenRowsShowOnePage | bikeshare.py:118-126 | With ten rows, Enter after rows 0-4 ends the pager, so rows 5-9 are never shown. |
| Session.ChosenFiltersValid | bikeshare.py:380-388 | Every month and weekday `get_filters` returns can be looked up by `update_df_columns`. |
| Session.LoadData | bikeshare.py:326-349 | A fresh frame with the city's columns plus the two derived ones, holding the filtered rows. |
| Session.RestartChoice | bikeshare.py:593-594 | A new query starts exactly when the answer's first character is `y` or `Y`. |
| Session.ViewFrom | bikeshare.py:581-585 | The pager runs from the first row exactly when the first answer to the view prompt means view. It then reads on from the next input, and its trace is the pager's trace. The view ends where the pager stopped reading. After a skip it ends right after the answer. After a rejected first answer it ends after the next accepted one. It runs out of input exactly when no answer is left, when the pager runs out after a view answer, or when no accepted answer follows a rejected one. |
| Session.OfferView | bikeshare.py:581-585 | Returns exactly what `ViewFrom` gives. |
| Session.Restart | bikeshare.py:590-598 | The restart answer is the input right at the given position, and the query ends just after it. It is the last one the query reads, and it decides whether the loop goes on. With no input left, the query ends `Exhausted`. |
| Session.QueryAnswer | bikeshare.py:576-598 | Reads forward from the given position and keeps the filters. The last input read is the restart answer. |
| Session.QueryAnswerMeaning | bikeshare.py:576-588 | The "no matching data" notice appears exactly when the filtered view is empty. Otherwise the outcome is the summary of the filtered rows, and the pages are shown exactly when the view answer means view. The restart answer comes right after the last view or pager answer, or right after the filters when nothing matched. |
| Session.QueryAnswerRunsOut | bikeshare.py:576-598 | With no matching row, the pass runs out of input exactly when there is no restart answer. Otherwise it runs out exactly when the view prompt or the pager does, or when they used up the last input. |
| Session.AnswerQuery | bikeshare.py:576-598 | Returns exactly what `QueryAnswer` gives. |
| Session.QueryFrom | bikeshare.py:570-598 | One pass reads the filters first, and they are the ones `FiltersFrom` gives. The restart answer comes after them. The filters are valid for the city's data. |
| Session.QueryCycle | bikeshare.py:570-598 | Returns exactly what `QueryFrom` gives. The filters' answers end before the restart answer. |
| Session.QueryStep | bikeshare.py:570-598 | One pass, as a reader over positions, always ends further on in the input. |
| Session.RunOfRestarts | bikeshare.py:570-598 | Every query of a run but the last was answered yes. The run quits exactly when the last one was not. It has no query only when the first pass runs out of input. |
| Session.RunOfReads | bikeshare.py:570-598 | Each query is the pass read from where the previous one ended. A run that does not quit ends on a pass that runs out of input. |
| Session.RunQueries | bikeshare.py:570-598 | The loop returns exactly the run `RunOf` gives for the passes of `QueryFrom`. |

## Behaviour kept as written

The model follows the program's code, including where the code does not do
what its names or comments say:

- `month_abbr2name` always returns `None` (`Calendar.MonthAbbr2Name`). The
  headings of `get_filters` therefore print "None" for the month.
- `month_num2name(m)` reads `month_name[m-1]`, so the busiest month is
  reported one month early, and January as the empty string
  (`Calendar.MonthNum2NameOffByOne`).
- `weekday_num2str` maps an abbreviation, not a number, to a full name.
- After one rejected answer, `confirm_df_view` drops the value of its
  recursive call. It returns `None`, which skips the view
  (`Prompts.ConfirmDfView`, `Session.OfferView`).
- The pager prints a page only while `index < len - 5`. The last row of a
  view is therefore never printed, and a view of at most five rows prints
  none (`Pager.PagesStayInside`, `Pager.ShortFrameShowsNothing`,
  `Pager.TenRowsShowOnePage`). With ten rows the pager ends after rows
  0-4, so rows 5-9 are never shown.
- A duration of a day or more is printed as `timedelta` prints it, for
  example `1 day, 1:01:01`, not as hours beyond 24.

## Left out

- Reading the CSV files and deriving month, weekday and hour with
  `pd.to_datetime`. These are library calls, so each trip carries its
  derived values, and `Session.CityData` stands for a file already read.
- `input`, `print`, the banner, the headings and the screen clears. Inputs
  are a sequence of strings; the model returns what is printed as values.
- The table layout of `dictionary_prettyprint` and
  `value_counts().to_string()`.
- Floating point. Durations and birth years are whole numbers. The
  `round()` of the total is the identity on them.
- `Stats.DurationStatsOf`: the mean is rounded half-to-even on the exact
  rational mean. numpy rounds the floating-point mean, which can differ at
  exact ties that are not representable.
- `Stats.BirthYearStatsOf`: `floor` of an all-empty column raises
  `ValueError` in the program; the model returns `NoYearValues` instead.
- Which of several equally frequent values `idxmax()` picks. The model
  promises only a value of maximal count.
- The locale of the `calendar` tables. The model fixes them to English.
- Case mapping and `str.title()` are ASCII-only. Python also maps other
  Unicode letters, for example U+017F to `S`.
- The uncaught `EOFError` that
  ends the program when input runs out becomes an `Exhausted` result.
- The `value_counts()` order from most to least frequent is not modelled.
  The counts are a map.
- Python's recursion limit. Each rejected answer to a prompt
  (bikeshare.py:158, 187, 211, 235, 256, 279) and each page move
  (bikeshare.py:124) adds a stack frame. After about a thousand of them the
  program stops with `RecursionError`. `Prompts.ReadUntilValid` and
  `Pager.PrintBikeshareDfPage` are loops, and they never stop that way.
