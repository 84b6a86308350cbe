# Bikeshare explorer, modelled in Dafny

A model of the interactive bikeshare analysis script `bikeshare.py`. The
script asks for a city, a month and a weekday, loads that city's trips,
keeps the trips of the chosen month and weekday, prints four groups of
statistics (most common times, most common stations and trip, total trip
duration, user counts and birth years), pages through the raw rows five at a
time, and offers to start again.

The model takes each trip as a record whose derived columns (month number,
weekday name, start hour) are already filled in, and the console as one
stream of answers read in order. The modules follow the program's parts:

- `Text` (text.dfy): `str.lower()` and `str.title()` on ASCII letters.
- `Tables` (tables.dfy): the trip record and the table operations the script
  borrows from the table engine: counting, boolean-mask selection, columns.
- `Prompts` (prompts.dfy): `get_filters`, three prompts that repeat until the
  answer is on a closed list. The re-prompt loop is a method with a loop
  invariant, proved equal to the function `Choose` that states its outcome.
- `Loading` (loading.dfy): `CITY_DATA` and the filter part of `load_data`.
- `Stats` (stats.dfy): `time_stats`, `station_stats`, `trip_duration_stats`,
  `user_stats`, with "most common" (`mode()[0]`), min, max, sum and
  `value_counts()`.
- `Paging` (paging.dfy): `raw_data`, a loop that shows `df[cursor:cursor+5]`
  and advances the cursor by five while the answer is `yes`.
- `Session` (session.dfy): `main`, which repeats the whole cycle while the
  restart answer is `yes`. One pass of the loop body is the function
  `OnePass`, performed imperatively by `RunPass`; the `while True` loop is
  stated once over any pass function (`Loop`), and `Sessions` is that loop
  with `OnePass` as its body.

Two behaviours of the script are kept as they are. The city `all` is on the
prompt's list but has no entry in `CITY_DATA`, so choosing it makes loading
fail. Answers to "Please try again" are compared without lower-casing, so
`Chicago` is accepted at the first asking but rejected at a re-prompt.

A `mode()[0]` over an empty column raises in the script; the model returns
a failure naming the column (`NoMode("month")` for an empty filtered table,
`NoMode("Birth Year")` when a city with demographic columns has no birth
year in the selection), and `main`'s run then ends as `Crashed`.

## Model

| member | source | states |
|---|---|---|
| Text.Lower | bikeshare.py:21 | every character of the answer is replaced by its lower-case form, length unchanged |
| Text.LowerWithoutUpper | bikeshare.py:21 | lower-casing a string without upper-case letters changes nothing |
| Text.TitleFrom | bikeshare.py:80 | a letter following a cased letter becomes lower case, every other letter upper case, length unchanged |
| Text.Title | bikeshare.py:80 | `day.title()` starts with the upper-case form of the first character and keeps the length |
| Text.TitleKeepsLetters | bikeshare.py:80 | title-casing only changes case: lower-casing the result gives the lower-cased input |
| Text.TitleOfLowerWord | bikeshare.py:78-80 | a lower-case word title-cases to the word with its first letter capitalised |
| Text.TitleOfMonday | bikeshare.py:80 | the answer `monday` becomes the weekday name `Monday` |
| Tables.Count | bikeshare.py:157 | the number of occurrences is positive exactly when the value occurs, and at most the length |
| Tables.CountIsMultiplicity | bikeshare.py:157 | the count of a value is its multiplicity in the multiset of the column, so it ignores row order |
| Tables.Select | bikeshare.py:75 | a boolean-mask selection keeps only rows satisfying the mask and is no longer than the table |
| Tables.PresentCount | bikeshare.py:162-171 | dropping empty cells keeps every present value exactly as often as it occurs in the column |
| Tables.SelectIsSubsequence | bikeshare.py:75 | the selection is the table with rows removed and the rest in their original order |
| Tables.SelectCount | bikeshare.py:75 | every occurrence of a kept row survives and no occurrence of a dropped row does |
| Tables.SelectMembership | bikeshare.py:80 | a row is in the selection exactly when it is in the table and satisfies the mask |
| Tables.SelectIdempotent | bikeshare.py:75 | applying the same mask twice gives the same table as once |
| Tables.SelectSelect | bikeshare.py:69-80 | the month mask then the day mask select what their conjunction selects |
| Tables.SubsequenceTransitive | bikeshare.py:75-80 | removing rows twice is removing rows once, order kept |
| Tables.Column | bikeshare.py:93-125 | a column has one cell per row, the cell of row i computed from row i |
| Tables.Present | bikeshare.py:162-171 | the present values of an optional column: every present cell is in it and nothing else is |
| Prompts.Retry | bikeshare.py:22-24 | the re-prompt accepts the first later answer on the list exactly as typed, and every answer before it is off the list |
| Prompts.Choose | bikeshare.py:21-24 | a prompt yields the lower-cased first answer if it is on the list, else the first verbatim re-prompt answer on the list; the value is always on the list |
| Prompts.ReadChoice | bikeshare.py:21-24 | the prompt loop returns the outcome `Choose` states |
| Prompts.Filters | bikeshare.py:20-43 | the returned city, month and day are on `city_list`, `month_list` and `day_list`, after at least three answers |
| Prompts.GetFilters | bikeshare.py:9-43 | the three prompt loops in order return the selection `Filters` states |
| Prompts.FiltersAcceptValidAnswers | bikeshare.py:20-38 | three answers already on their lists are accepted at the first asking |
| Prompts.LowerOfListEntry | bikeshare.py:20-34 | every entry of the three lists is already lower case |
| Prompts.FirstAnswerIsLowered | bikeshare.py:20-22 | the first answer is lower-cased: `Chicago` is accepted as `chicago`, and `ALL` as the city `all` |
| Prompts.RetryIsCaseSensitive | bikeshare.py:22-24 | after an invalid first answer, `Chicago` is rejected and `chicago` accepted |
| Loading.IndexOf | bikeshare.py:72 | `list.index` finds the first position holding the value, and fails exactly when the value is absent |
| Loading.MonthNumber | bikeshare.py:71-72 | a month name maps to its 1-based position among the six months, and only month names map |
| Loading.MonthNumbers | bikeshare.py:71-72 | january maps to 1, march to 3, june to 6 |
| Loading.FilterRows | bikeshare.py:69-83 | filtering fails exactly on a month that is neither `all` nor one of the six months |
| Loading.LoadData | bikeshare.py:46-83 | loading fails for a city without a `CITY_DATA` entry, then for a missing file, and otherwise filters that city's table |
| Loading.CityWithoutFile | bikeshare.py:5-7 | of the cities on the prompt's list, exactly `all` has no file |
| Loading.MonthListIsMonthsAndAll | bikeshare.py:27 | the month prompt accepts exactly the six months and `all` |
| Loading.AllCityCannotBeLoaded | bikeshare.py:59 | loading the city `all` always fails with an unknown-city error |
| Loading.NoFilterKeepsEverything | bikeshare.py:69-83 | with month `all` and day `all` the table comes back unchanged, in order |
| Loading.MonthFilterIsExact | bikeshare.py:69-75 | with day `all` and a month name, a row is kept as often as it was loaded if its month number matches, and never otherwise |
| Loading.DayFilterIsExact | bikeshare.py:78-80 | with month `all` and a day name, a row is kept as often as it was loaded if its weekday is the title-cased day, and never otherwise |
| Loading.FilterIsExact | bikeshare.py:69-80 | with any month and day that load, a row is kept as often as it was loaded if it matches the month number (unless `all`) and the title-cased day (unless `all`), and never otherwise |
| Loading.FilterIsSubsequence | bikeshare.py:69-83 | every filter result is an order-preserving subsequence of the loaded table |
| Loading.FilterIdempotent | bikeshare.py:69-83 | filtering a filtered table again with the same month and day changes nothing |
| Stats.Mode | bikeshare.py:93 | `mode()[0]` gives a value that occurs and that no value outnumbers, and gives nothing on an empty column |
| Stats.ModeIgnoresOrder | bikeshare.py:93 | whether a value is a most common one does not depend on the order of the rows |
| Stats.Min | bikeshare.py:165 | the earliest birth year occurs and is no later than any other; none when no year is present |
| Stats.Max | bikeshare.py:168 | the most recent birth year occurs and is no earlier than any other; none when no year is present |
| Stats.Tally | bikeshare.py:157 | `value_counts()` has every value that occurs, only those, each with its number of occurrences |
| Stats.TotalDuration | bikeshare.py:139 | with non-negative durations the total is non-negative and at least every single duration |
| Stats.TotalDurationAppend | bikeshare.py:139 | the total of two tables put together is the sum of their totals |
| Stats.TotalDurationIgnoresOrder | bikeshare.py:139 | two tables holding the same rows, in any order, have the same total duration |
| Stats.TotalDurationSplits | bikeshare.py:139 | the totals of the rows a mask keeps and of those it drops add up to the total of the table |
| Stats.PairKey | bikeshare.py:124 | the combination key is the start station, then `to`, then the end station, with no separator |
| Stats.PairKeysCanCollide | bikeshare.py:124-125 | the pairs (`Ato`, `B`) and (`A`, `toB`) get the same key |
| Stats.TallyOfPresent | bikeshare.py:162 | counting an optional column gives a key for exactly the present values, each with its number of rows |
| Stats.TimeStats | bikeshare.py:86-106 | most common month, weekday and hour are modes of their columns; fails exactly on an empty table |
| Stats.StationStats | bikeshare.py:109-129 | most common start station, end station and combination are modes of their columns; fails exactly on an empty table |
| Stats.UserStats | bikeshare.py:150-178 | `value_counts()` of user type has a key for exactly the user types that occur, each with its number of rows; demographics are absent exactly for `washington`; otherwise the gender counts have a key for exactly the genders present, each with its number of rows, and earliest <= most common <= most recent birth year, all present; fails exactly when a non-Washington table has no birth year |
| Stats.Describe | bikeshare.py:196-199 | the four statistics fail exactly on an empty table (first at `month`) or on a non-Washington table without birth years, and report the total duration |
| Stats.DescribeIsItsParts | bikeshare.py:196-199 | a successful report holds exactly the results of `time_stats`, `station_stats` and `user_stats` on the same table |
| Paging.Page | bikeshare.py:185 | a page is the five rows from the cursor, fewer at the end, none past the end |
| Paging.YesRun | bikeshare.py:181-189 | the number of leading `yes` answers (any case): all counted answers are `yes` and the next one is not |
| Paging.IsYesIsLowerYes | bikeshare.py:181-187 | an answer counts as `yes` exactly when its lower-cased form is `yes` |
| Paging.RawData | bikeshare.py:180-189 | one page per leading `yes`, the k-th page (from 0) being rows `[5k, 5k+5)` |
| Paging.PagesCoverPrefix | bikeshare.py:183-186 | the first n pages together are exactly the first 5n rows (all rows if fewer): no overlap, no gap |
| Session.Pages | bikeshare.py:183-186 | the first n pages shown: n of them, the k-th being rows `[5k, 5k+5)` of the table |
| Session.OnePass | bikeshare.py:193-200 | a pass that reaches the end of the paging stops strictly later in the answers and inside them; a pass that stops early never counts as a normal finish |
| Session.OnePassPaging | bikeshare.py:180-189 | the pages of a completed pass are one per `yes` answered just before the pass stopped, after the three prompts, and the answer it stopped at is not `yes` |
| Session.OnePassGuarantees | bikeshare.py:193-200 | a completed pass has a valid selection other than `all`, the table `load_data` returns for it (non-empty, a subsequence of the city's file), the statistics `Describe` computes on that table, and pages of five; a load failure after validation is only the city `all` or a missing file |
| Session.RunPass | bikeshare.py:193-200 | the loop body (prompts, loading, statistics, paging) performs the pass `OnePass` states |
| Session.Loop | bikeshare.py:191-204 | a run that ends because the restart answer is not `yes` has completed at least one pass |
| Session.LoopStep | bikeshare.py:191-204 | helper lemma: one turn of the loop, unfolded in terms of the pass it starts with |
| Session.LoopCycles | bikeshare.py:191-204 | every recorded cycle is the cycle of some pass started inside the answers, and a crash that ends the run is the crash of some pass |
| Session.Step | bikeshare.py:193-200 | the loop body as a pass function: defined on every position of the answers and equal to `OnePass` there |
| Session.SessionsGuarantees | bikeshare.py:191-204 | every pass of a run of `main` is a completed one (its table is what `load_data` returns for its selection and its report the statistics of that table), and the only load failures that end a run are the city `all` and a missing file |
| Session.NextPass | bikeshare.py:193-200 | running the loop body yields the pass the pass function gives at that position |
| Session.RestartLoop | bikeshare.py:191-204 | the `while True` loop, with the loop body run imperatively, produces the run `Loop` states |
| Session.MainLoop | bikeshare.py:191-204 | `main()` produces the run `Sessions` states: passes repeat exactly while the restart answer is `yes` in any case |

## Left out

- Reading the CSV files (`pd.read_csv`): the files are a given map from file name to table; a missing name is a `MissingFile` failure.
- Timestamp parsing and the derived columns (`pd.to_datetime`, `.dt.month`, `.dt.weekday_name`, `.dt.hour`): every trip record carries its month number, weekday name and start hour.
- The mean trip duration (`mean()`): floating point.
- Wall-clock timing (`time.time()`) and all printing and formatting.
- The `hour` and `combination` columns that the statistics add to the table in place, and that the raw-data pages then also show: the model derives them per record (`HourOf`, `TripOf`) and leaves the stored table unchanged.
- The order of `value_counts()` output: counts are a map.
- Empty cells in `User Type`, `Start Station`, `End Station` and `Trip Duration`: these fields are always present in the model, whereas `mode()`, `value_counts()` and `sum()` skip empty cells.
- Stats.Mode: pandas breaks ties by returning the smallest tied value; the contract only promises a most frequent value (the model picks the first in row order).
- Stats.TotalDuration: integers are unbounded; a 64-bit overflow of the sum is not modelled.
- Text.Lower: only ASCII letters change case; the Unicode case rules of Python strings are not modelled (Text.Title likewise).
- End of console input: when the answers run out the run ends as `InputExhausted` instead of raising `EOFError`.
