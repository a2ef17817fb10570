# pr_stats in Dafny

This project models `pr_stats.rb`, a script that reads an export of GitHub pull requests and prints merge-latency statistics. The model covers five parts of the script:

- **Records.** `GitHubPullRequestInfo.new` turns a CSV row into a record (module `GitHubPullRequestInfo`). The three date columns go through `parse_datetime`, and `time_to_merge` is derived from them.
  - A date attribute is `nil`, the empty String or a timestamp. The empty String is kept as a value of its own because it is truthy in Ruby.
  - A `Merged` value that is the empty String (a quoted `""` cell; an unquoted empty cell reads as `nil`) therefore reaches `"" - created` and raises. A `Merged` date with no usable `Created` date raises too.
- **The recency filter** at line 87 (module `Sampling`). It keeps the records created strictly after the cutoff, in order. A record whose `Created` value is the empty String (a quoted `""` cell; an unquoted empty cell reads as `nil`) makes the comparison raise.
- **`ttm_data`** (module `Sampling`): `select`, then `map(&:time_to_merge)`, then `compact`. Each step is its own function.
- **The driver** (module `PrStats`):
  - it builds every record, or raises the first row's error;
  - it filters the records and prints a blank line;
  - it prints three reports over the buckets for thresholds 0, 1 and 3.
  The script stops at the first exception.
- **`report`** (module `Reporting`). It is a method that `puts` lines in order and loops over `each_slice(3)` and `each_slice(2)`. The statistics object is an abstract oracle, `Stats`, and any of its calls may fail.
  - The method is proved equal to running a *plan*: the list of `puts` steps, each with the line it prints or the error it raises.
  - `Console.Execute` runs a plan, printing each line until a step raises. Lines already printed stay printed.
  - Lemmas about the plan give the complete 21-line layout, and they show how the report stops when a statistic is missing.

Integers are unbounded, as in Ruby. Timestamps are integer seconds, and a day is 86400 seconds.

Each part of the model has a partner it is proved against:

- `ttm_data` against the reference `AtLeast(Latencies(data), m)`;
- a higher threshold against the lower threshold's bucket;
- the report method against its plan;
- `Kernel#Integer` against `Integer#to_s`.

## Model

| member | source | states |
|---|---|---|
| GitHubPullRequestInfo.ParseDatetime | pr_stats.rb:16-20 | `nil` gives `nil` and `""` gives `""`, each if and only if the input is that value. Any other value is parsed with " Pacific Time" appended and the `%m/%d/%y %H:%M:%S %Z` format. The result is a timestamp exactly when the parse succeeds. A failed parse raises. |
| GitHubPullRequestInfo.DaysBetween | pr_stats.rb:34 | The whole number of days from created to merged, rounded down: `days*86400 <= merged-created < (days+1)*86400`. It is non-negative exactly when merged is not before created. |
| GitHubPullRequestInfo.TimeToMerge | pr_stats.rb:34 | `nil` exactly when merged is `nil`. A number exactly when both dates are timestamps, and then it is their floor day difference. A merged date that is the empty String raises NoMethodError. A merged timestamp with a created date that is `nil` or the empty String raises TypeError. |
| GitHubPullRequestInfo.New | pr_stats.rb:22-35 | A parameter that is neither a CSV row nor a Hash is rejected with 'Invalid parameter', and nothing else is rejected with it. The record is built exactly when the row's dates parse and its latency can be computed. The built record copies Repository, #, User, Title, State and URL verbatim, and holds the parsed dates. It satisfies the record invariant: latency `nil` iff merged `nil`, and otherwise the floor day difference. A Merged value that is the empty String (a quoted `""` cell; an unquoted empty cell reads as `nil`) always makes construction fail. |
| Wrappers.AllOkMeaning | pr_stats.rb:86 | Mapping a raising operation over a list succeeds exactly when every element succeeds, and then gives every result in order. Otherwise it raises the error of the first element that fails. |
| PrStats.BuildRecordsMeaning | pr_stats.rb:86 | About `BuildRecords`: `rows.map { new }` gives one record per row in order exactly when every row can be built. Otherwise it raises the first failing row's error. |
| Sampling.SelectRecent | pr_stats.rb:87 | It raises exactly when some record has an empty Created string, with ArgumentError. Otherwise the result is a subsequence of the input: ordered, and holding only records whose Created is a timestamp strictly after the cutoff. Every such record is kept. |
| Sampling.SelectRecentAppend | pr_stats.rb:87 | Filtering `a + b` is filtering `a`, then filtering `b`, and concatenating the results. The first raise wins. |
| Sampling.SelectRecentSingle | pr_stats.rb:87 | A single record raises if its Created is `""`. Otherwise it is kept exactly when it is recent. |
| Sampling.SelectByTtm | pr_stats.rb:90-91 | The result is a subsequence of the input. Every record in it has `(time_to_merge or 0) >= minimum`, and every passing record of the input is in it. |
| Sampling.SelectByTtmCounts | pr_stats.rb:90-91 | The select keeps every occurrence of a passing record and no occurrence of a failing one. |
| Sampling.SelectByTtmSingle | pr_stats.rb:90-91 | A single record is kept exactly when `(time_to_merge or 0) >= minimum`. |
| Sampling.SelectByTtmAppend | pr_stats.rb:90-91 | Selecting from `a + b` is selecting from `a`, then from `b`. With SelectByTtmSingle this fixes the result: the passing records in input order, every occurrence kept. |
| Sampling.MapTtm | pr_stats.rb:92 | `map(&:time_to_merge)` keeps the length and maps each position. |
| Sampling.Compact | pr_stats.rb:92 | `compact` holds exactly the non-`nil` values, and is no longer than its input. |
| Sampling.CompactCounts | pr_stats.rb:92 | `compact` keeps every occurrence of every non-`nil` value: each integer occurs in the result as often as its `Some` occurs in the input. |
| Sampling.CompactSingle | pr_stats.rb:92 | A single value is kept exactly when it is not `nil`. |
| Sampling.CompactAppend | pr_stats.rb:92 | `compact` of `a + b` is `compact(a)` followed by `compact(b)`. With CompactSingle this fixes the order: the non-`nil` values as they come. |
| Sampling.Latencies | pr_stats.rb:92 | Reference sequence: the latencies of the merged records, in input order. Its members are exactly those latencies. |
| Sampling.TtmData | pr_stats.rb:89-93 | Every element is at least the minimum. `x` is an element exactly when some merged record has latency `x` and `x` is at least the minimum. |
| Sampling.TtmDataInOrder | pr_stats.rb:89-93 | `ttm_data(d, m)` is the latencies of `d` in input order, cut at `m`. It holds no `nil`. With `m = 0` it also drops negative latencies. |
| Sampling.TtmDataAppend | pr_stats.rb:89-93 | `ttm_data` of `a + b` is `ttm_data(a)` followed by `ttm_data(b)`. |
| Sampling.TtmDataSingle | pr_stats.rb:89-93 | A single record contributes its latency exactly when it has one and it is at least the minimum. |
| Sampling.TtmDataIgnoresUnmerged | pr_stats.rb:89-93 | Inserting an unmerged record anywhere leaves `ttm_data` unchanged, whatever the minimum, including 0. |
| Sampling.TtmDataRaise | pr_stats.rb:89-93 | For `low <= high`, the high-threshold bucket is the low-threshold bucket cut at `high`. |
| Sampling.TtmDataMonotone | pr_stats.rb:89-93 | For `low <= high`, `ttm_data(d, high)` is a subsequence of `ttm_data(d, low)` and no longer. |
| PrStats.BucketsNest | pr_stats.rb:97-107 | About `SplitBuckets`, the samples of lines 97, 101 and 105: the three buckets for thresholds 0, 1 and 3 are each the previous one cut at its threshold. Each is a subsequence of the previous ones. Their sizes do not increase. The third holds no latency under 3. |
| PrStats.Run | pr_stats.rb:86-107 | The script's statements in order: build the records, filter them, print a blank line, then the three reports. It stops at the first exception. Its output equals `ScriptOutput`. |
| PrStats.ScriptSilentOnBadInput | pr_stats.rb:86-87 | A row that cannot be built, or a record with an empty Created string, stops the script before any line is printed. The latter raises ArgumentError. |
| PrStats.ScriptLayout | pr_stats.rb:95-107 | With every bucket's statistics available, the script prints a blank line and the three complete reports, 64 lines in all. The three descriptions are at lines 3, 24 and 45, and the three `n = count` lines at 4, 25 and 46. |
| PrStats.ScriptStopsAtFirstReport | pr_stats.rb:95-99 | A missing statistic for the first bucket makes the script end with that error. By then it has printed the blank line and the first report's five header lines, and fewer than 22 lines in all. |
| Console.Execute | pr_stats.rb:59-83 | `puts` after `puts`: the lines printed are the steps' lines, in order, up to the first step that raises. The run raises exactly when it printed fewer lines than there are steps, and then it raises that step's error. |
| Console.ExecuteAppend | pr_stats.rb:58-84 | Running two blocks of `puts` is running the first, then the second only if the first did not raise. |
| Console.ThenAssociates | pr_stats.rb:97-107 | Running three statements one after another does not depend on how they are grouped. |
| Reporting.RangeLine | pr_stats.rb:64 | The range line is printed exactly when `min` and `max` are both available. Otherwise it raises a statistic error. |
| Reporting.FixedLine | pr_stats.rb:65-67 | A Mean, Median or StdDev line is printed exactly when its value is available. |
| Reporting.PercentileEntry | pr_stats.rb:72 | A percentile entry is formatted exactly when `value_from_percentile(n)` is available. |
| Reporting.PercentileOrFallback | pr_stats.rb:79 | The `%2d` conversion of `(percentile_from_value(n) rescue '-1')` gives the percentile, or -1 when the call raises. |
| Reporting.ThresholdFallback | pr_stats.rb:79 | A failed `percentile_from_value(n)` turns entry `n` into `"%2d days: -1%"`; the report goes on. |
| Reporting.PercentileRow | pr_stats.rb:71-73 | A percentile row is printed exactly when every one of its ranks has a value; otherwise it raises a statistic error. |
| Reporting.ThresholdEntryText | pr_stats.rb:79 | Entry `n` is `%2d` of `n`, `" days: "`, `%2d` of the percentile of `n` days (or -1 when the call raised) and `%`. |
| Reporting.ThresholdRowAppend | pr_stats.rb:78-80 | About `ThresholdRow`: each further day adds the five-space separator and its entry after the entries before it. |
| Reporting.PercentileRowAvailable | pr_stats.rb:71-73 | When every rank of a row has a value, the row is the entries' texts in order, joined by five spaces. |
| Reporting.PercentileRowFirstFailure | pr_stats.rb:71-73 | A row raises the statistic error of the first rank whose value is missing. |
| Reporting.FormatPercentileRow | pr_stats.rb:71-73 | The loop over a row's ranks gives the specification's row. That is the joined texts, or the error of the first missing value. |
| Reporting.FormatThresholdRow | pr_stats.rb:78-80 | The loop over a row's days gives the specification's row: the entries joined by five spaces. |
| Reporting.PercentileSlices | pr_stats.rb:70 | `[50, 60, 70, 80, 90, 95].each_slice(3)` gives two rows of three ranks. |
| Reporting.ThresholdSlices | pr_stats.rb:77 | `[0, 1, 2, 3, 5, 7, 10].each_slice(2)` gives the rows `[0, 1]`, `[2, 3]`, `[5, 7]` and `[10]`. |
| Reporting.PercentileRowsLines | pr_stats.rb:70-74 | With every statistic available, the percentile block prints its two rows, three entries each, joined by five spaces. |
| Reporting.ThresholdRowsLines | pr_stats.rb:77-81 | The threshold block never raises. It prints four rows of 2, 2, 2 and 1 entries, joined by five spaces. |
| Reporting.PrintPercentileRows | pr_stats.rb:70-74 | The `each_slice(3)` loop prints the rows of the plan in order. If a row raises, the result is the outcome of the whole plan. |
| Reporting.PrintThresholdRows | pr_stats.rb:77-81 | The `each_slice(2)` loop prints every threshold row of the plan, in order. |
| Reporting.Puts | pr_stats.rb:59-83 | One `puts`: it prints the step's line, or it raises the step's error and ends the run. |
| Reporting.PlanShape | pr_stats.rb:58-84 | About `ReportPlan`: `report` makes 21 `puts` calls, and the first five print SEP, the title, the description, `n = count` and SEP. |
| Reporting.PrintSummary | pr_stats.rb:64-67 | The four summary `puts` in order. If one raises, the result is the outcome of the whole report. Otherwise all four lines are printed and the rest of the report is left to run. |
| Reporting.PrintPercentiles | pr_stats.rb:68-74 | SEP, the `Percentiles:` header, then the `each_slice(3)` loop. If a row raises, the result is the outcome of the whole report. Otherwise the rest of the report is left to run. |
| Reporting.PrintThresholds | pr_stats.rb:75-81 | SEP, the threshold header, then the `each_slice(2)` loop. It never raises, and leaves the rest of the report to run. |
| Reporting.PrintFooter | pr_stats.rb:82-83 | The closing SEP and the bare `puts`. The result is the outcome of the whole report. |
| Reporting.Report | pr_stats.rb:58-84 | The method prints exactly what running the report's plan of 21 `puts` steps prints, and raises what that plan raises. |
| Reporting.ReportCompletes | pr_stats.rb:58-84 | With every statistic available, `report` prints 21 lines and does not raise. The lines are: SEP at 0, 4, 9, 13 and 19; title, description and `n = count` at 1-3; the summary at 5-8; the percentiles header at 10 and its two rows at 11-12; the thresholds header at 14 and its four rows at 15-18; a blank line last. |
| Reporting.CompleteReportLayout | pr_stats.rb:58-84 | The positions of each block within the 21 lines of a complete report. |
| Reporting.PlanFailures | pr_stats.rb:58-84 | Every step of `report` that raises raises a failed statistic. |
| Reporting.PlanRaisesSomewhere | pr_stats.rb:64-73 | A missing min, max, mean, median, stddev or percentile value makes some step raise. |
| Reporting.ReportRaises | pr_stats.rb:58-84 | With a statistic missing, `report` raises a statistic error. It has printed its five header lines, and fewer than 21 lines. |
| Text.EachSlice | pr_stats.rb:70 | `each_slice(k)`: the slices concatenate back to the input. Each slice is non-empty and at most `k` long, and all but the last are exactly `k` long. |
| Text.NatToStringDigits | pr_stats.rb:62 | `Integer#to_s` of a natural number is one or more digits with no leading zero. It is one digit exactly below 10. |
| Text.IntToStringForm | pr_stats.rb:62 | About `IntToString`: `Integer#to_s` writes a minus sign exactly for negative numbers, followed by one or more digits. |
| Text.IntToStringRoundTrip | pr_stats.rb:79 | `Kernel#Integer` reads back what `Integer#to_s` writes. In particular `'-1'` becomes -1. |
| Text.ParseIntCanonical | pr_stats.rb:79 | About `ParseInt`, the converse round trip: a String in the form `Integer#to_s` writes (no leading zero, no `-0`) that `Kernel#Integer` accepts is written back unchanged. |
| Text.FormatIntJustifies | pr_stats.rb:64 | About `FormatInt`: `%2d` right-justifies the decimal text with spaces and never truncates it. |
| Text.JoinLayout | pr_stats.rb:73 | `join(sep)` is as long as the parts together plus one `sep` for each pair of neighbours, and starts with the first part. |
| Text.JoinAppend | pr_stats.rb:73 | About `Join`: joining `a + b` (both non-empty) is joining `a`, then `sep`, then joining `b`, so exactly one `sep` stands between neighbouring parts. |

## Left out

- CSV and file reading, the `ARGV` check and `exit 0` (lines 6, 7 and 109). These are I/O. The rows are a parameter of `PrStats.Run`, as a sequence of `Param` values.
- `DateTime.now` and the cutoff computation (line 9). The cutoff is a parameter.
- `DateTime.strptime` and the Pacific time zone. Parsing is a parameter (`Strptime`) that gives a timestamp in seconds or fails. Only the text it is handed (value + " Pacific Time", and the format) is modelled.
- `DescriptiveStatistics::Stats.new` (lines 98, 102 and 106). This is a library whose source is not part of this model. `PrStats.Run` takes a function from sample to `Stats`, and each oracle call may fail.
- `%5.2f` (lines 65-67). Floating-point rendering is not modelled. Mean, median and standard deviation are carried as their rendered text.
- GitHubPullRequestInfo.DaysBetween: it does not model the Float rounding of `.to_f`. The day difference is exact integer floor division of seconds by 86400.
- `to_h` and `to_s` (lines 37-54). They are a debugging view that the script never uses.
- Text.ParseInt: `Kernel#Integer` is modelled only for the decimal forms `Integer#to_s` writes. Underscores, radix prefixes and surrounding blanks are rejected rather than read. A leading `0`, which Ruby reads as an octal prefix, is read as decimal. The report only ever hands it `'-1'`.
- `puts` on a line that contains newline characters. The model counts one printed line per `puts`. No line `report` prints has a newline in it.
- CSV's reading of empty cells. The model assumes that an unquoted empty cell reads as `nil` and that a quoted `""` cell reads as the empty String. The parser is not modelled.
- Reporting.PercentileOrFallback: `percentile_from_value(n)` is assumed to return an integer or raise. A `nil` return would make `format` raise a TypeError outside the `rescue`, and the model does not represent that case.
- Reporting.PercentileEntry: `value_from_percentile(n)` is taken to return an integer or fail. A `nil` or non-numeric value that `%2d` rejects is folded into the failure case. The same holds for `min` and `max` in Reporting.RangeLine.
