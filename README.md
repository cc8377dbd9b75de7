# logwatcher statistics pipeline in Dafny

logwatcher tails an HTTP access log and shows running traffic statistics in a terminal dashboard. It also raises a traffic alert when the average hits per alert interval exceed a threshold. This project models the pipeline behind those numbers, starting from already-parsed `CommonLog` records:

- **Window aggregator.** `CollectStatItems` turns the records buffered since the last refresh tick into one `StatItem` summary. The summary holds the hits, the 2xx–5xx counts, hits per section and hits per status text.
- **Totals and average accumulator.** `LoadOnRefresh`, `LoadOnAlert` and `PurgeTmpStat`.
- **Event loop.** The record, refresh-tick and alert-tick arms of `Run`, as a sequential state machine (`Watcher.Pipeline`). Before it starts comes the check in `main` that the alert interval is a multiple of the refresh interval, and `CollectionNum`.
- **Top-N report.** `sortMap` renders a counter map as one `key : count` line per key, most frequent first.
- **Alert decision.** The decision inside `UpdateAlertView`: the alert state, the append-only message log and the alert view's background colour.

Modules:

| file | module | content |
|---|---|---|
| wrappers.dfy | Wrappers | `Option`, `Result`, `Outcome` |
| goint.dfy | GoInt | Go's truncating `/` and `%` (`Quot`, `Rem`) |
| text.dfy | Text | `strings.Split` on one character, `strconv.Itoa` and its inverse |
| counting.dfy | Counting | `m[k]++` on a Go map, and the sum of a map's values |
| records.dfy | Records | `CommonLog`, `StatItem`, the five counters, `Config`, status class, section |
| aggregate.dfy | Aggregate | `CollectStatItems` and the reference counts it is proved against |
| report.dfy | Report | `sortMap` |
| alert.dfy | Alert | the alert decision as a function on values, and its invariant |
| watcher.dfy | Watcher | the classes `StatsTotal`, `StatsAvg`, `AlertView`, `Logwatcher`, the event loop `Pipeline`, the start-up guard |

Each imperative operation is a method. Its `ensures` ties the new state or the result to a specification function, for example `Aggregate.Summarize`, `Report.IsReport` or `Alert.Evaluate`. The lemmas beside each function then prove what the program promises.

Behaviour of the code that the model keeps as written:

- **Alert on every tick above the threshold.** `UpdateAlertView` appends a new "High traffic" message on every alert tick whose average is above the threshold, even while already alerting (views.go:112-117, `Alert.RepeatedAlert`). A recovery is logged only once, when the average drops below the threshold while alerting.
- **A request without '/' crashes.** `strings.Split(request, "/")[1]` panics when the request has no '/' (main.go:205), which ends the program. The model returns that panic as an error value (`Aggregate.Panic`).
- **The start-up guard only tests the remainder.** The guard at main.go:284 only tests `int(math.Mod(alert, refresh)) != 0`, so it accepts a zero or negative alert interval. With a zero refresh interval `math.Mod` gives NaN, and `int(NaN)` depends on the platform. Where it is not 0 the guard rejects the options; where it is 0, `alert / refresh` at main.go:302 divides by zero and panics. Either way the program does not start, which `Watcher.StartUp` models as a rejection.
- **Refresh and alert ticks are independent.** Nothing makes every alert tick follow exactly `CollectionNum` refresh ticks, since the two tickers run independently (main.go:252-270). The model allows any interleaving of the three events. `Records.AverageOfEqualWindows` states what happens when exactly `CollectionNum` equal windows come before an alert tick.

## Model

| member | source | states |
|---|---|---|
| GoInt.Quot | main.go:180-184 | Go's `/`: the remainder is smaller than the divisor and has the dividend's sign |
| GoInt.Rem | main.go:284 | the truncated remainder (what `math.Mod` computes on integers): the dividend minus the divisor times the truncated quotient, smaller than the divisor and with the dividend's sign |
| GoInt.QuotUnique | main.go:180-184 | the truncated quotient is the only quotient with those two properties |
| Text.Split | main.go:205 | `strings.Split` on one character gives one more part than there are separators, and no part contains the separator |
| Text.JoinSplit | main.go:205 | joining the parts with the separator gives back the string |
| Text.SplitHasSecond | main.go:205 | index 1 of the split exists exactly when the separator occurs |
| Text.SecondPiece | main.go:205 | part 1 of the split is the text between the first and the second separator |
| Text.IntToString | main.go:207 | `strconv.Itoa` never gives the empty text |
| Text.ParseIntToString | main.go:207 | parsing the decimal text gives the integer back |
| Text.IntToStringInjective | main.go:207 | two statuses have the same text exactly when they are equal |
| Text.ReadBackInt | main.go:102 | the integer printed between any prefix and suffix is read back from that slice |
| Counting.Bump | main.go:206-207 | `m[k]++`: `k` becomes a key with one more than before (or 1), and every other key keeps its value |
| Counting.MapSumBump | main.go:206-207 | `m[k]++` adds exactly one to the sum of the map's values |
| Records.SumWindowsAppend | main.go:169-173 | the totals over two runs of windows are the sum of each run's totals |
| Records.SumOfEqualWindows | main.go:163-167 | `n` windows of `h` hits each add `n * h` to the accumulator |
| Records.AverageOfEqualWindows | main.go:180 | averaging `n` windows of `h` hits each over `n` gives `h` |
| Records.StatusClassRange | main.go:194-203 | `Status / 100` is k (2..5) exactly for statuses k00 to k99, so negative or other statuses are in no class |
| Records.StatusClass | main.go:194 | `Status / 100` with Go's division: c hundred up to c hundred and 99 for a non-negative status, the mirror range for a negative one |
| Records.Section | main.go:205 | the section exists exactly when the request contains '/' |
| Records.SectionOfPath | main.go:205 | the section is "/" and the text between the first and second '/' |
| Records.SectionExample | main.go:135 | the request of the sample log line, "/assets/avatars/avatar4.png", is in section "/assets" |
| Aggregate.SwitchClass | main.go:194-203 | the `switch` raises exactly the counter of the record's status class |
| Aggregate.AddRecord | main.go:193-208 | one record adds one hit, raises by one exactly the counter of its status class `Status / 100` when that is 2 to 5 and no other, and adds one to its section's and its status text's map entries, leaving every other entry as it was |
| Aggregate.Summarize | main.go:187-210 | a successful summary counts every record of the batch in its hits; a panic names a record of the batch |
| Aggregate.CollectStatItems | main.go:187-210 | the loop returns the summary of the batch in record order, or the panic of the first record without '/' |
| Aggregate.SummarizeStep | main.go:193-208 | one more record adds that record to the summary, or panics when its request has no '/' |
| Aggregate.FailureSticks | main.go:193-208 | after a panic, later records change nothing |
| Aggregate.SummarizeFails | main.go:205 | the aggregation fails exactly when some request lacks '/', and it names the first such record |
| Aggregate.SummaryCounts | main.go:193-208 | hits is the batch length; each class counter, each section count and each status-text count equals its independent record-by-record count, and the maps have exactly the keys that occur |
| Aggregate.ClassCountsBounded | main.go:194-204 | at most one class per record, so the four class counts add up to at most the batch length |
| Aggregate.ClassesWithinHits | main.go:194-204 | Status2xx + Status3xx + Status4xx + Status5xx <= Hits |
| Aggregate.MapsSumToHits | main.go:204-207 | the values of TopSections, and those of TopStatus, each sum to Hits |
| Aggregate.CountStatusTextIsCountStatus | main.go:207 | counting records by status text is counting them by status |
| Aggregate.TopStatusKeys | main.go:207 | every TopStatus key is the text of some record's status, and TopStatus[Itoa(s)] is the number of records with status s |
| Aggregate.TextOccurs | main.go:207 | a status text with a non-zero count belongs to some record |
| Report.SortMap | main.go:87-106 | the message is the margin followed by one `key : count` line for every key, each exactly once, in non-increasing count order |
| Report.Entry | main.go:102 | a line opens with the margin and a tab, then the key; the count reads back from the text after the key and " : " |
| Report.GroupByCount | main.go:89-95 | the keys are grouped by count: each key is in the group of its own count, every group is non-empty and has no duplicates |
| Report.CountsOf | main.go:96-98 | the counts slice lists each count that has a group exactly once |
| Report.SortDescending | main.go:99 | the sorted counts are strictly decreasing and hold the same values |
| Report.Insert | main.go:99 | inserting a new value keeps the sequence strictly decreasing and adds exactly that value |
| Report.EmitGroup | main.go:101-103 | each key of a group adds its line to the message, in order |
| Report.RankingLength | main.go:100-104 | a report has exactly as many lines as the map has keys |
| Report.RankingHead | main.go:99-104 | the first line carries the largest count |
| Alert.TextsDiffer | views.go:113-124 | an alert message is never read as a recovery, and a recovery never as an alert |
| Alert.AlertText | views.go:113-115 | the alert message opens with the margin and "High traffic generated an alert - average hits = ", and ends with the date |
| Alert.RecoverText | views.go:122-124 | the recovery message opens with the margin and "Low traffic generated a recover - average hits = ", and ends with the date |
| Alert.AlertCarriesAverage | views.go:113-115 | the average reads back from an alert message, between its opening words and ", triggered at " |
| Alert.RecoverCarriesAverage | views.go:122-124 | the average reads back from a recovery message likewise |
| Alert.AlertIsNotRecover | views.go:113-124 | a message with the alert opening never has the recovery opening |
| Alert.Evaluate | views.go:112-131 | the decision only appends to the message log, at most one message |
| Alert.EvaluateState | views.go:112-131 | after the decision the state is true exactly when the average is above the threshold, or sits at it while alerting |
| Alert.EvaluateLog | views.go:112-131 | the log only grows, by at most one message: an alert exactly when above the threshold, whatever the prior state; a recovery exactly when below it while alerting; nothing at the threshold |
| Alert.EvaluateColor | views.go:116-128 | red after an alert, green after a recovery, default below the threshold when not alerting, unchanged at the threshold |
| Alert.InitialConsistent | main.go:298-301 | at start-up (no alert, empty log, default colour) the alert status is consistent |
| Alert.EvaluatePreserves | views.go:112-131 | the decision keeps the state true exactly when the last message is an alert, exactly when the view is red, and every recovery directly after an alert |
| Alert.ConsistentAfterAlert | views.go:112-117 | appending an alert message, with state true and a red view, keeps the alert status consistent |
| Alert.ConsistentAfterRecover | views.go:119-126 | appending a recovery message while alerting, with state false and a green view, keeps the alert status consistent |
| Alert.AppendPreserves | views.go:113-124 | appending an alert, or a recovery after an alert, keeps the log well formed |
| Alert.NoAdjacentRecoveries | views.go:119-126 | two recovery messages are never next to each other |
| Alert.RunConsistent | views.go:112-131 | after any run of alert ticks from start-up, the alert status is consistent |
| Alert.RepeatedAlert | views.go:112-117 | two ticks above the threshold log two alert messages |
| Watcher.StartUp | main.go:284-288 | the guard accepts only a non-zero refresh interval |
| Watcher.StartUpSound | main.go:284-302 | on acceptance, `CollectionNum` refresh intervals make exactly the alert interval, and positive intervals give at least one window per alert |
| Watcher.StartUpComplete | main.go:284-302 | every alert interval that is a multiple k of a non-zero refresh interval is accepted with `CollectionNum` = k |
| Watcher.StartUpZeroRefresh | main.go:284-288 | a zero refresh interval is rejected |
| Watcher.StartUpDefault | config.go:5-6 | the default intervals (10 s, 120 s) pass the guard at main.go:284 with 12 windows per alert |
| Watcher.StatsTotal.constructor | main.go:299 | the totals start at zero |
| Watcher.StatsAvg.constructor | main.go:230 | the accumulator and the averages start at zero |
| Watcher.AlertView.constructor | layout.go:101 | the alert view starts with the default colour |
| Watcher.Logwatcher.constructor | main.go:295-303 | the watcher starts with no alert, an empty log, zero counters and `CollectionNum` = alert / refresh |
| Watcher.Logwatcher.LoadOnRefresh | main.go:162-177 | the accumulator and the totals each grow by exactly the window's five counters, and both report strings become reports on the window's maps |
| Watcher.Logwatcher.LoadOnAlert | main.go:179-185 | each average is the matching accumulator field divided by `CollectionNum` with Go's division |
| Watcher.Logwatcher.PurgeTmpStat | main.go:212-218 | all five accumulator fields become zero |
| Watcher.Logwatcher.UpdateAlertView | views.go:112-131 | state, log and colour change exactly as the alert decision says |
| Watcher.Pipeline.constructor | main.go:222-230 | the loop starts with an empty buffer, no windows, zero accumulator and the start-up alert status, and its invariant holds |
| Watcher.Pipeline.Record | main.go:240-241 | a record is appended to the buffer |
| Watcher.Pipeline.RefreshTick | main.go:252-257 | the buffer is summarised and then emptied, the window is added to the totals and the accumulator, and the invariant holds (totals = sum of all windows, accumulator = sum of the windows since the last alert tick); on a panic the buffer, windows, totals, accumulator and report strings are unchanged |
| Watcher.Pipeline.AlertTick | main.go:263-269 | the averages are the windows since the last alert tick divided by `CollectionNum`, the accumulator becomes zero, the alert decision is applied and the invariant holds |
| Watcher.SumWindowsStep | main.go:169-173 | adding one window adds its counters to the sum |

## Left out

- Line parsing in `LogReader` (main.go:116-160), with its regular expression: records come in already parsed. The crash on a line that does not match is not modelled.
- File tailing, the `logTailC`/`logDumpC` channels, the `done` signal, the mutex, the WaitGroup and the tickers. The event loop is a sequential state machine in which any interleaving of records and ticks is allowed.
- The raw-line display (`logEvents`, `UpdateLogTailView`), the other views, the layout and all terminal calls. The alert view's colour is kept as a field; the message text written to the view is not modelled.
- `UpdateAlertView` runs inside `g.Update` on the GUI goroutine, so it may run after later ticks. The model runs it right after `LoadOnAlert` and `PurgeTmpStat`.
- `TimeElapsed`, `Date` and `StartTime` read the wall clock. The date string of an alert message is a parameter, and the `Timestamp` of a `StatItem` is left out.
- The `log.Println` of a recovery, the syslog set-up and go-flags parsing. `Config` is a plain datatype with the defaults of config.go.
- Watcher.Pipeline.RefreshTick: Go panics, and the program ends, on a request without '/'. The model reports the panic as a `Fail` outcome and keeps the state unchanged.
- Watcher.StartUp: models `math.Mod` as an exact truncated remainder. It does not model floating-point rounding for intervals beyond 2^53.
- Integer width: Go's `int` is 64-bit, so counters could overflow. The model uses unbounded integers.
- Watcher.Pipeline.constructor: requires positive intervals, because `time.NewTicker` panics otherwise. The guard alone does not ensure this.
- Report.SortMap: the sort algorithm itself (`sort.Sort`) is not modelled, only its result. Keys with equal counts may come out in any order, as with Go's map iteration.
- Text.Split and Records.Section work on a Dafny `string`, a sequence of characters. Since '/' is one byte that never occurs inside a multi-byte UTF-8 sequence, this gives Go's pieces for every valid UTF-8 request. A Go string may also hold bytes that are not UTF-8, which a Dafny `string` cannot represent.
