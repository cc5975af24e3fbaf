# CheckCPU — a Dafny model of the Sensu CPU check

`plugins/system/check-cpu.rb` is a Sensu check. It measures CPU usage, compares it against a
warning and a critical threshold, and reports ok, warning or critical with a one-line summary.
This project models the check's logic and proves properties of it.

- **Linux sampler** (`LinuxSampler`). `get_cpu_stats` scans the lines of `/proc/stat`. It returns
  the counters of the first line whose first token is exactly `cpu`. Per-core rows (`cpu0`,
  `cpu1`, …) are skipped, and later `cpu` rows are never read.
- **FreeBSD sampler** (`FreeBsdSampler`). `get_cpu_stats` reads the output of `vmstat`. It skips
  header lines, keeps the last three fields of each data line as `us, sy, id`, and returns
  `us + sy`. With no data line it returns 0. A data line with fewer than three fields also gives
  0: Ruby's `[-3..-1]` is nil there, and `nil.to_f` is 0.
- **Deltas and percentages** (`CpuUsage`). For the nine modes `user … guest`, the later sample's
  counters minus the earlier sample's give the deltas. A mode missing from the later sample gets
  no delta. The deltas add up to a total. Each delta becomes a percentage of that total, and
  total busy is `100*(total - idle)/total`.
- **Metric selection** (`MetricSelection`). The checked value is total busy, under the name
  `CheckCPU TOTAL`. For every set `--<mode>` flag, in mode order, the value and name are
  overwritten, so the last set flag wins.
- **Summary** (`Summary`). The summary is `total=<busy>` followed by ` <mode>=<pct>` for all nine
  modes in mode order. It does not depend on the flags.
- **Classification** (`Threshold`). A value above `crit` is critical. Otherwise a value above
  `warn` is a warning. Anything else is ok. Both comparisons are strict.
- **`run`** (`CheckCpu.Run`) composes these parts for each platform.

The source's loops become methods with `while`/`for` loops. Each method is proved against a
specification function or an outright postcondition. Tick counters are `int`: Ruby holds them
as floats, which are exact for integral counts below 2^53. Percentages are `real`, so the
identities "percentages sum to 100" and "busy + idle = 100" hold exactly.

Three behaviours of the code shape the model:
- The summary always lists all nine modes, because line 106 iterates over all nine percentages.
- An absent mode makes line 91 divide `nil` and raise, even though line 83 guards the delta.
- A zero total gives NaN or infinity at lines 91 and 94.

The model states the last two as preconditions, as listed under "## Left out".

## Model

| member | source | states |
|---|---|---|
| `LinuxSampler.LinuxCpuStats` | plugins/system/check-cpu.rb:44-51 | The line loop with early return yields the counters of the first aggregate row, or nothing when the file has none. Lines after that row are never read and may be anything, empty ones included. |
| `LinuxSampler.CpuRowIsFirstAggregateRow` | plugins/system/check-cpu.rb:47-50 | The result is absent exactly when no line's first token is `cpu`. Otherwise it is the parsed tokens after the first token of the first such line. |
| `LinuxSampler.PerCoreRowIsSkipped` | plugins/system/check-cpu.rb:48-50 | A `cpuN` per-core row never matches, so putting one in front changes nothing. |
| `LinuxSampler.LaterLinesIgnored` | plugins/system/check-cpu.rb:47-50 | Once a `cpu` row exists, appending any lines (further `cpu` rows and empty lines included) leaves the result unchanged. |
| `FreeBsdSampler.FreeBsdCpuStats` | plugins/system/check-cpu.rb:52-64 | The loop that overwrites `us, sy, id` on every non-header line returns `us + sy` of the final state. |
| `FreeBsdSampler.UsageFromLastDataLine` | plugins/system/check-cpu.rb:55-64 | The result is the sum of the third- and second-last fields of the last non-header line, or 0 when that line has fewer than three fields. |
| `FreeBsdSampler.UsageWithoutDataLine` | plugins/system/check-cpu.rb:53-64 | With only header lines the `0, 0, 0` initialisers survive and the result is 0. |
| `CpuUsage.ComputeDelta` | plugins/system/check-cpu.rb:79-87 | For each of the nine modes the delta is after minus before when the later sample has that mode, else absent. The total is the sum of exactly the present deltas. |
| `CpuUsage.DeltaTotalIsDifferenceOfSums` | plugins/system/check-cpu.rb:79-87 | The total equals the sum of the later counters minus the sum of the earlier ones, over the present modes among the first nine. |
| `CpuUsage.ExtraCountersIgnored` | plugins/system/check-cpu.rb:81-86 | Counters past the ninth never change the deltas. |
| `CpuUsage.ComputePercentages` | plugins/system/check-cpu.rb:89-92 | Each mode's percentage is `100*delta/total`, and together they add up to `100*(sum of deltas)/total`. |
| `CpuUsage.SharesSum` | plugins/system/check-cpu.rb:89-92 | The sum of per-mode shares equals the share of the summed deltas. |
| `CpuUsage.PercentagesSumTo100` | plugins/system/check-cpu.rb:79-92 | With all nine modes present and a non-zero total, the nine percentages add up to exactly 100. |
| `CpuUsage.BusyPlusIdleIs100` | plugins/system/check-cpu.rb:91-94 | Total busy plus the idle percentage is exactly 100. |
| `CpuUsage.WorkedExample` | plugins/system/check-cpu.rb:79-94 | Before `{100,0,50,850,0…}` and after `{200,0,100,900,0…}` give total 200, idle 25% and busy 75%. |
| `MetricSelection.SelectMetric` | plugins/system/check-cpu.rb:95-103 | With no flag set, the value is total busy and the name is `CheckCPU TOTAL`. Otherwise the value is the percentage of the last set flag's mode and the name is `CheckCPU <MODE>`. |
| `MetricSelection.NoneSetOrLastSet` | plugins/system/check-cpu.rb:95-103 | Either no flag is set or a last set flag exists, never both, so the selection always decides. |
| `MetricSelection.CheckNames` | plugins/system/check-cpu.rb:97-100 | The name is the upper-cased mode name after `CheckCPU `: `CheckCPU USER` through `CheckCPU GUEST` for all nine modes. |
| `Summary.BuildMessage` | plugins/system/check-cpu.rb:105-106 | The appending loop yields `total=<busy>` followed by one ` <mode>=<pct>` entry per mode, and begins with `total=`. |
| `Summary.EntriesInModeOrder` | plugins/system/check-cpu.rb:106 | Entries appear in mode order: the entry of mode m directly follows those of modes before it, inside every longer listing. |
| `Summary.SummaryStartsWithTotalThenUser` | plugins/system/check-cpu.rb:105-106 | The summary starts with the total entry immediately followed by the `user` entry. |
| `Threshold.Classify` | plugins/system/check-cpu.rb:114-116 | Critical exactly when value > crit. Warning exactly when value ≤ crit and value > warn. Ok otherwise. |
| `Threshold.ClassifyMonotone` | plugins/system/check-cpu.rb:114-116 | A larger value never gets a less severe status. |
| `Threshold.ThresholdsAreStrict` | plugins/system/check-cpu.rb:114-116 | For any thresholds, a value equal to `warn` is not a warning and a value equal to `crit` is not critical. |
| `Threshold.NoWarningWhenCritNotAboveWarn` | plugins/system/check-cpu.rb:114-116 | With crit ≤ warn, no value is classified as a warning. |
| `CheckCpu.Run` | plugins/system/check-cpu.rb:68-117 | Status is the classification of the checked value. On FreeBSD the value is the vmstat usage and the summary is `total=<value>`. On Linux the value and name follow the flag selection over the derived percentages, and the summary lists busy and all nine percentages whatever the flags. |
| `CheckCpu.LinuxTotalIsBusy` | plugins/system/check-cpu.rb:89-97 | On Linux, total busy is 100 minus the idle percentage, and the percentages sum to 100. |

## Left out

- Option declarations and platform detection (lines 14-42) are framework configuration. The platform is a parameter, and the flags are a sequence of nine booleans in mode order.
- Reading `/proc/stat`, running `vmstat -w1 -c1` and `sleep config[:sleep]` are I/O and blocking. The model takes the two reads of the stat file and the vmstat output as already-split lines.
- String-to-number conversion (`to_f`) is not modelled. The parameters `parse` (counters) and `toF` (vmstat fields) stand for it.
- The vmstat header regular expressions are not modelled. The predicate parameter `isHeader` stands for them.
- Message number formatting (`round(2)` and `to_s`) is not modelled. The parameters `round2` and `show` stand for it, so the summary is stated structurally over unrounded values.
- Floating-point arithmetic is not modelled; the model uses exact integers and reals. A zero total gives NaN or infinity in the source, and NaN compares false against both thresholds. The model instead requires a non-zero total.
- CheckCpu.Run: requires all nine counters in the later sample. Line 91 divides `nil` for an absent mode and raises, even though line 83 guards the delta.
- CheckCpu.Run: requires an aggregate `cpu` row in both reads. Without one the line loop falls through and `run` fails when it indexes the result.
- CheckCpu.Run: requires every counter the later sample has among the first nine to be in the earlier sample. Otherwise the subtraction on line 84 raises on nil.
- LinuxSampler.LinuxCpuStats: requires every line up to and including the first `cpu` row to have a first token. An empty line there makes `name` nil, and `nil.match` raises; lines after that row are never read.
- Operating systems other than Linux and FreeBSD are not modelled. There `checked_usage` stays nil and the comparison on line 114 raises.
- The exit behaviour of `critical`, `warning`, `ok` and `message` belongs to the sensu-plugin library, which is not part of this model. The status is returned as a value.
- Setting the check name is class-level state in that library. It is modelled as a returned name, where `None` means the library's default is kept, as on FreeBSD.
- The delta array: Ruby's `cpu_stats_diff` only grows to the last assigned index. It is modelled as nine entries with absent ones explicit, which reads the same (`nil`) for every index.
