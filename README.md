# Working-from-home electricity calculator: a verified model of its core

This project models the logic behind a small web page. The page reads a utility's
half-hourly electricity export (CSV) and estimates how much electricity was used
while working from home, over a chosen date range, set of weekdays and time window.

It models four parts of the TypeScript sources:

- **The wide "VEC" export decoder** (`src/model/vec-csv.ts`), module `VecCsv`.
  - The header check compares the first 825 characters with the expected header.
  - The per-row decoder handles the NMI, meter serial, CON/GEN, date and estimated flag.
  - `buildUsageByHalfHour` is modelled as a method with its two nested loops. It builds the 48 `HH:MM - HH:MM` labels, looks each one up, turns a missing or unparseable cell into 0, and writes a map keyed by decimal hours 0, 0.5, …, 23.5.
  - The shared record list is a class, and `onParseStep` appends to it.
- **The narrow CitiPower export decoder** (`src/model/citipower-csv.ts`), module `CitiPowerCsv`.
  - The header check counts the fields of the first line.
  - The row step drops every row whose type code is not exactly `E1`. It turns `HH:MM` into a decimal half-hour key and appends `{date, hour, consumption}` to a shared list, which is a class.
- **The usage aggregator** (`src/components/Calculator.tsx`), module `Calculator`.
  - `isDayOfWeekMatch` and `isHourScheduleMatch`.
  - The record filter: consumption only, inclusive dates, ticked weekdays.
  - The accumulation loop that adds up in-window half-hour usage and counts one day per surviving record. It is a method over the filtered records, with an inner loop over the map's entries taken in any order.
- **The statistics helpers** (`src/model/maths-helper.ts`), module `MathsHelper`.
  - `asc` sorts the caller's array in place. `max` sorts, reverses in place and takes the first element. Both are methods on arrays.
  - `quantile` (and `q25`, `q50`, `q75`, `median`) sorts the caller's array in place and then interpolates between order statistics.
  - `sum` and `mean` are functions.

Two more modules hold shared definitions:
- `Records`: dates as day numbers with their weekday, the record type, and the library parsers passed in as parameters.
- `Wrappers`: `Option`. `None` stands for JavaScript's `NaN`, `undefined` or an Invalid Date.

Two facts about the code shape the model:
- `Calculator.tsx` never calls any outlier-capping step and never imports the statistics helpers. Its total is the plain in-window sum. The helpers are modelled on their own, and no capped sum is modelled.
- The narrow decoder is typed as returning the wide record type, but it pushes objects of shape `{date, hour, consumption}`. The model uses that shape (`CitiPowerCsv.Reading`).

## Model

| member | source | states |
|---|---|---|
| VecCsv.ValidateCsv | src/model/vec-csv.ts:33-41 | the file is accepted exactly when it is at least as long as the expected header and its first characters equal the header, case- and quote-sensitively |
| VecCsv.HeaderLength | src/model/vec-csv.ts:34-40 | the expected header is exactly 825 characters long, the length of the slice that is read |
| VecCsv.HeaderColumnsAreSourceText | src/model/vec-csv.ts:40 | each of the 48 time-range columns of the expected header is, in order, the column name written in the source's literal header, from `00:00 - 00:30` to `23:30 - 00:00` |
| VecCsv.HeaderColumnsAreLoopLabels | src/model/vec-csv.ts:40 | the 48 time-range columns of the expected header, in order, are the labels the nested loops build for each half hour; with `HeaderColumnsAreSourceText`, every column of the literal header is looked up |
| VecCsv.Pad2Digits | src/model/vec-csv.ts:68 | padding a number below 100 to two digits gives its tens digit and then its units digit |
| VecCsv.TimeOfDayChars | src/model/vec-csv.ts:68-70 | a time on the half hour is the five characters `HH:00` or `HH:30` |
| VecCsv.FirstHalfChars | src/model/vec-csv.ts:68-75 | the label of the first half of an hour runs from `HH:00` to `HH:30`; its end is never rewritten |
| VecCsv.SecondHalfChars | src/model/vec-csv.ts:71-84 | the label of the second half of an hour ends at the next hour's `HH:00`; `24:00` becomes `00:00` exactly for the last hour |
| VecCsv.TimeRangeShape | src/model/vec-csv.ts:68-84 | the label `TimeRange` builds: half 0 of hour h is `pad2(h):00 - pad2(h):30`; half 1 is `pad2(h):30 - pad2((h+1) mod 24):00` |
| VecCsv.TimeRangeIsColumnLabel | src/model/vec-csv.ts:66-84 | the label built for half k of hour h is the label of column 2h+k |
| VecCsv.UsageOfHalfHour | src/model/vec-csv.ts:85-92 | the usage map of a row holds the key of every half hour; its value is 0 when the row lacks that half hour's column or its text does not parse, and the parsed number otherwise |
| VecCsv.SlotKeyInLoopOrder | src/model/vec-csv.ts:92 | the key `hour + (halfHour ? 0.5 : 0)` is half the column's position in loop order |
| VecCsv.SlotsUsageContents | src/model/vec-csv.ts:66-93 | after n steps the map holds exactly the first n keys, each with its own column's value; no later write overwrites an earlier key |
| VecCsv.KeysBelowCount | src/model/vec-csv.ts:92 | the first n keys are n distinct numbers |
| VecCsv.ColumnValueInLoopOrder | src/model/vec-csv.ts:84-89 | the value of column 2h+k is the parsed cell under the label built for half k of hour h |
| VecCsv.BlockKwh | src/model/vec-csv.ts:68-89 | one inner-loop step (build the label, parse the cell, NaN to 0) yields that column's value |
| VecCsv.StoreHalfHour | src/model/vec-csv.ts:92 | writing that value under the loop's key extends the map by exactly one column |
| VecCsv.BuildUsageByHalfHour | src/model/vec-csv.ts:60-97 | the nested loops return exactly the half-hourly usage map of the row |
| VecCsv.HalfHourlyUsageShape | src/model/vec-csv.ts:66-92 | for every row the map has exactly the 48 keys 0, 0.5, …, 23.5, and key i/2 holds column i's parsed value or 0 |
| VecCsv.DecodeRow | src/model/vec-csv.ts:50-57 | NMI, serial and date are the parsed cells; the type is consumption iff CON/GEN is exactly `Consumption`; estimated iff `ESTIMATED?` is exactly `Yes`; the usage map has the 48 half-hour keys |
| VecCsv.OnlyExactConsumption | src/model/vec-csv.ts:53 | any CON/GEN text other than exactly `Consumption` decodes as generation |
| VecCsv.RecordList.OnParseStep | src/model/vec-csv.ts:44-58 | exactly one record, the row's decoding, is appended, and the earlier records are unchanged and in order |
| VecCsv.DecodeAll | src/model/vec-csv.ts:21 | one record per row, record i being row i's decoding |
| VecCsv.DecodeRows | src/model/vec-csv.ts:17-29 | one step per row, in order, produces the decoded rows |
| VecCsv.ParseCsv | src/model/vec-csv.ts:12-31 | the result is present iff the header check passes and the reader succeeds; it then has one record per row, each row's decoding |
| CitiPowerCsv.SplitJoin | src/model/citipower-csv.ts:30 | splitting loses nothing: joining the pieces with the separator gives the text back, and no piece contains the separator |
| CitiPowerCsv.SplitCount | src/model/citipower-csv.ts:33 | splitting gives one more piece than there are separators |
| CitiPowerCsv.FirstLineIsPrefix | src/model/citipower-csv.ts:30 | the first line is a prefix of the text, holds no line feed, and ends the text or is followed by a line feed |
| CitiPowerCsv.ValidateCsv | src/model/citipower-csv.ts:27-34 | the file is accepted iff the first line within the first 825 characters holds exactly 11 commas, which is 12 fields |
| CitiPowerCsv.SubstringSplit | src/model/citipower-csv.ts:54 | `substring` with clamped bounds: adjacent substrings join into the substring that spans both |
| CitiPowerCsv.HourKeyHalves | src/model/citipower-csv.ts:54 | the hour key of a time `HH:MM`: HH + 0.5 for `HH:30`, HH for any other minutes |
| CitiPowerCsv.SampleRow | src/model/citipower-csv.ts:41 | the documented sample row decodes to hour 0.5 and consumption 0.023 |
| CitiPowerCsv.Readings | src/model/citipower-csv.ts:43-56 | every reading kept is the decoding of one of the rows |
| CitiPowerCsv.ReadingsAppend | src/model/citipower-csv.ts:36-57 | reading two batches of rows in turn gives the readings of each, concatenated |
| CitiPowerCsv.ReadingsCount | src/model/citipower-csv.ts:43-56 | one reading per `E1` row and none for any other row |
| CitiPowerCsv.ReadingList.OnParseStep | src/model/citipower-csv.ts:36-57 | a row that is not `E1` leaves the list unchanged; an `E1` row appends exactly its reading (date from field 1 as dd/MM/yyyy, hour key of field 2, consumption from field 7, NaN when missing) to the end |
| CitiPowerCsv.ReadRows | src/model/citipower-csv.ts:11-24 | one step per row, in order, produces the readings of the `E1` rows |
| CitiPowerCsv.ParseCsv | src/model/citipower-csv.ts:6-25 | the result is present iff the field-count check passes and the reader succeeds; it then holds the readings of the rows |
| Records.Weekday | src/components/Calculator.tsx:95 | `getDay()` of a day number is in 0..6, and it is 4 (Thursday) exactly on multiples of seven days from 1 January 1970 |
| Calculator.SelectedDays | src/components/Calculator.tsx:93-117 | the ticked boxes are weekday numbers 0..6 |
| Calculator.CheckBoxesRoundTrip | src/components/Calculator.tsx:93-117 | not an operation of the source: reading the ticked days off the boxes and ticking them again gives the same boxes, so the day numbers `IsDayOfWeekMatch` is stated with lose nothing |
| Calculator.DaySetRoundTrip | src/components/Calculator.tsx:93-117 | not an operation of the source: ticking a set of days and reading them back gives the set's numbers in 0..6 |
| Calculator.IsDayOfWeekMatch | src/components/Calculator.tsx:93-117 | defined (no throw) iff the day number is in 0..6, and then true iff that day (0 Sunday … 6 Saturday) is ticked |
| Calculator.DecimalHours | src/components/Calculator.tsx:122-125 | a picker time in decimal hours is its hour or half past it: the time rounded down to the half hour |
| Calculator.IsHourScheduleMatch | src/components/Calculator.tsx:119-130 | an hour matches only inside a window that ends after it starts, so an empty window matches nothing |
| Calculator.SlotInWindow | src/components/Calculator.tsx:127 | half-hour key i/2 matches iff 2·start ≤ i < 2·end: start inclusive, end exclusive |
| Calculator.Survives | src/components/Calculator.tsx:149-155 | a record is kept iff it has a valid date within the inclusive range, on a ticked weekday, and is consumption |
| Calculator.FilterRecords | src/components/Calculator.tsx:149-155 | every kept record is an input record that survives, and no more records are kept than given |
| Calculator.FilterKeepsSurvivors | src/components/Calculator.tsx:149-155 | every input record that survives is kept |
| Calculator.FilterAppend | src/components/Calculator.tsx:149-155 | the filter keeps order: filtering a concatenation is concatenating the filtered parts |
| Calculator.GenerationIgnored | src/components/Calculator.tsx:154 | inserting a generation record anywhere does not change what the filter keeps |
| Calculator.SumOverRemove | src/components/Calculator.tsx:160-165 | the sum over a map's entries does not depend on the order the entries are visited in |
| Calculator.SumOverConstant | src/components/Calculator.tsx:160-165 | entries that all hold c sum to c times their number |
| Calculator.AddRecordUsage | src/components/Calculator.tsx:160-166 | the loop over one record's entries adds exactly the sum of its in-window values |
| Calculator.Aggregate | src/components/Calculator.tsx:143-175 | the day count is the number of surviving records, even those with nothing in the window; the usage is the sum over survivors of their in-window values, 0 when none survive |
| Calculator.EmptyWindowNoUsage | src/components/Calculator.tsx:157-169 | with an empty time window the usage is 0 |
| Calculator.GenerationNeverCounted | src/components/Calculator.tsx:154 | a generation record changes neither the day count nor the usage |
| Calculator.KeysBetweenCount | src/components/Calculator.tsx:127 | a run of consecutive half-hour keys has as many keys as half hours |
| Calculator.FlatDayWorkingHours | src/components/Calculator.tsx:119-130 | between 8:00 and 17:00 a full day has exactly the 18 half hours 8:00 to 16:30 |
| Calculator.DefaultQueryOnFlatMonday | src/components/Calculator.tsx:143-175 | with the page's default query, a Monday in range with the same usage in every half hour is kept and contributes 18 times that usage |
| MathsHelper.Insert | src/model/maths-helper.ts:3 | inserting into an ascending sequence keeps it ascending and adds exactly that element |
| MathsHelper.InsertionSort | src/model/maths-helper.ts:3 | an ascending permutation of any sequence exists |
| MathsHelper.SortedOf | src/model/maths-helper.ts:3 | the ascending arrangement is ascending and a permutation of the input |
| MathsHelper.SortedUnique | src/model/maths-helper.ts:3 | any two ascending permutations of the same numbers are equal, so the order after sorting is determined |
| MathsHelper.SiftDown | src/model/maths-helper.ts:3 | one pass extends the ascending prefix by one element and only permutes the array |
| MathsHelper.Asc | src/model/maths-helper.ts:3 | the caller's array is left ascending and a permutation of its old contents |
| MathsHelper.ReverseInPlace | src/model/maths-helper.ts:18 | the caller's array is left reversed |
| MathsHelper.ReversedProperties | src/model/maths-helper.ts:18 | reversing twice is the identity; reversing keeps the elements and turns ascending into descending |
| MathsHelper.Max | src/model/maths-helper.ts:17-19 | the caller's array is left sorted descending; the result is `quantile(arr, 1)`, the largest element, or undefined for an empty array |
| MathsHelper.SumAppend | src/model/maths-helper.ts:5 | `sum`: the sum of a concatenation is the sum of the parts |
| MathsHelper.SumBounds | src/model/maths-helper.ts:5 | n numbers between lo and hi sum to between n·lo and n·hi |
| MathsHelper.MeanTimesLength | src/model/maths-helper.ts:7 | the mean of a non-empty array times its length is its sum |
| MathsHelper.MeanBounds | src/model/maths-helper.ts:7 | the mean of numbers between lo and hi lies between them |
| MathsHelper.InterpolateBetween | src/model/maths-helper.ts:28 | interpolating by a fraction below one stays between the two neighbours |
| MathsHelper.QuantileAt | src/model/maths-helper.ts:25-31 | at a position the result is defined iff the floor of the position is an index of the array |
| MathsHelper.Quantile | src/model/maths-helper.ts:22-32 | for q in [0, 1] the quantile is defined iff the array is non-empty |
| MathsHelper.QuantileAtInterpolates | src/model/maths-helper.ts:25-31 | on a sorted array at a position between the first and last index, the result is `sorted[b] + r·(sorted[b+1] − sorted[b])`, or `sorted[b]` at the last index, and lies between the least and the greatest element |
| MathsHelper.QuantileOfSortedInterpolates | src/model/maths-helper.ts:24-31 | `QuantileOfSorted`, the body after the sort: the same for the position `(n − 1)·q` with q in [0, 1] |
| MathsHelper.QuantileInterpolates | src/model/maths-helper.ts:22-32 | for a non-empty array and q in [0, 1] the quantile is defined, is the interpolation between order statistics b and b+1, and lies between the minimum and the maximum |
| MathsHelper.SortedEnds | src/model/maths-helper.ts:3 | the first sorted element is the minimum and the last the maximum of the array |
| MathsHelper.QuantileZeroIsMin | src/model/maths-helper.ts:24-28 | `quantile(arr, 0)` is the smallest element |
| MathsHelper.QuantileOneIsMax | src/model/maths-helper.ts:24-31 | `quantile(arr, 1)` is the largest element, through the undefined upper neighbour |
| MathsHelper.QuantileAtMonotone | src/model/maths-helper.ts:25-31 | on a sorted array a position further right never gives a smaller value |
| MathsHelper.QuantileOfSortedMonotone | src/model/maths-helper.ts:24-31 | on a sorted array a higher q never gives a smaller value |
| MathsHelper.QuantileMonotone | src/model/maths-helper.ts:22-32 | for q1 ≤ q2 in [0, 1] the q1-quantile is at most the q2-quantile, so `q25 ≤ median ≤ q75` |
| MathsHelper.MedianOfSorted | src/model/maths-helper.ts:24-31 | at q = 0.5 a sorted array gives its middle element for odd length and the mean of the two middle elements for even length |
| MathsHelper.MedianIsMiddle | src/model/maths-helper.ts:36-40 | the median is the middle sorted element, or the mean of the two middle ones |
| MathsHelper.QuantileInPlace | src/model/maths-helper.ts:22-32 | the caller's array is left sorted ascending and the result is the interpolated quantile of the old contents |
| MathsHelper.Q25 | src/model/maths-helper.ts:34 | `q25` is the quantile at 0.25, and sorts the caller's array |
| MathsHelper.Q50 | src/model/maths-helper.ts:36 | `q50` is the quantile at 0.5, and sorts the caller's array |
| MathsHelper.Q75 | src/model/maths-helper.ts:38 | `q75` is the quantile at 0.75, and sorts the caller's array |
| MathsHelper.Median | src/model/maths-helper.ts:40 | `median` is `q50`: the middle sorted element, or the mean of the two middle ones |

## Left out

- VecCsv.Header: the expected header is written as the five leading column names followed by the 48 half-hour labels, each quoted and preceded by a comma. `HeaderColumnsAreSourceText` proves each label equal to the matching column of the source's literal, and `HeaderLength` proves the 825-character length. The quoting between columns comes from the definition of `QuotedColumns`; the model does not compare the whole 825-character string with the literal in one piece.
- The library parsers (`parseInt`, `parseFloat`, `new Date(string)`, date-fns `parse`) are parameters (`Records.Parsers`), partial functions where `None` is NaN or an Invalid Date. Their text formats are not modelled.
- Dates are day numbers. Times of day and time zones are not modelled. The page's date comparisons are therefore on whole days.
- Numbers are mathematical reals, not IEEE doubles. Rounding, and the order in which floating-point sums are formed, are not modelled. So the arbitrary visiting order of `Object.entries` in the accumulation loop does not change the total.
- Calculator.AddRecordUsage: each key of the usage map is used as the number `parseFloat(key)` turns it back into. The model keys the map by numbers directly.
- Browser file reading (`file.slice(...).text()`), papaparse streaming, the web worker and the Promise wiring are not modelled. The reader's output is a parameter: the rows, or `None` when the reader reports an error. Empty lines are assumed already skipped.
- The slice of 825 is taken on characters, where the browser slices bytes. The two agree for the ASCII headers concerned.
- CitiPowerCsv.Substring: modelled only for `start <= end`, which covers every call in the source. JavaScript would swap the bounds otherwise.
- CitiPowerCsv.SampleRow: the sample row is given as its fields, not as the comma-separated text. The row splitting is the reader's.
- MathsHelper.SortedOf and MathsHelper.Quantile are specification functions (ghost). The methods `Asc`, `Max`, `QuantileInPlace`, `Q25`, `Q50`, `Q75` and `Median` compute the results. The in-place sort is an insertion sort: the algorithm of the engine's `Array.prototype.sort` is not modelled, but every ascending arrangement of the same numbers is the same (`SortedUnique`).
- `std` (`src/model/maths-helper.ts:10-14`) needs a square root of floating-point numbers and is not modelled.
- The React state, rendering, pickers, file input, the cost formula and the display rounding of `Calculator.tsx` are not modelled. The page's date, weekday and time inputs are the fields of `Calculator.Query`.
- `src/App.tsx` is not part of this model.
