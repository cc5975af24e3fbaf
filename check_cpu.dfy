/** `run` of the CPU check: sample, derive the checked value and the summary
    for the platform, and classify the value against the thresholds. */
module CheckCpu {
  import opened Wrappers
  import opened Lines
  import opened CpuModes
  import LinuxSampler
  import FreeBsdSampler
  import opened CpuUsage
  import opened MetricSelection
  import opened Summary
  import opened Threshold

  datatype Platform = Linux | FreeBsd

  /** The thresholds and, on Linux, the nine `--<mode>` flags in mode order. */
  datatype Config = Config(warn: real, crit: real, flags: seq<bool>)

  /** Status, the check name set by `run` (`None`: left at the plugin
      library's default), the checked value and the summary line. */
  datatype CheckResult = CheckResult(status: Status, name: Option<string>, value: real, message: string)

  /** What the Linux branch needs of its two reads of the stat file: every
      line up to the aggregate row has a token, both have an aggregate row, the later one has all nine counters, the earlier
      one has them too, and the counters moved. */
  predicate LinuxSamplesUsable(before: seq<Line>, after: seq<Line>,
                               parse: string -> int)
  {
    && LinuxSampler.ReadableToCpuRow(before) && LinuxSampler.ReadableToCpuRow(after)
    && LinuxSampler.CpuRow(before, parse).Some? && LinuxSampler.CpuRow(after, parse).Some?
    && ModeCount <= |LinuxSampler.CpuRow(after, parse).value|
    && Comparable(LinuxSampler.CpuRow(before, parse).value, LinuxSampler.CpuRow(after, parse).value)
    && SumPresent(Delta(LinuxSampler.CpuRow(before, parse).value,
                        LinuxSampler.CpuRow(after, parse).value)) != 0
  }

  /** The Linux branch's differences, from the two reads of the stat file. */
  function LinuxDelta(before: seq<Line>, after: seq<Line>,
                      parse: string -> int): seq<Option<int>>
    requires LinuxSamplesUsable(before, after, parse)
  {
    Delta(LinuxSampler.CpuRow(before, parse).value, LinuxSampler.CpuRow(after, parse).value)
  }

  /** `run`. The reads of the stat file before and after the sleep, and the
      output of `vmstat`, are given as split lines; `parse` is `to_f` on a
      counter, `toF` on a vmstat field, `isHeader` the header patterns,
      `round2` and `show` the two number formats of the messages. */
  method Run(platform: Platform, cfg: Config,
             statBefore: seq<Line>, statAfter: seq<Line>,
             vmstat: seq<Line>,
             parse: string -> int, isHeader: Line -> bool, toF: string -> real,
             round2: real -> string, show: real -> string)
    returns (r: CheckResult)
    requires platform == Linux ==>
               LinuxSamplesUsable(statBefore, statAfter, parse) && |cfg.flags| == ModeCount
    ensures r.status == Classify(r.value, cfg.warn, cfg.crit)
    ensures platform == FreeBsd ==>
              && r.value == FreeBsdSampler.Usage(vmstat, isHeader, toF)
              && r.name == None
              && r.message == "total=" + show(r.value)
    ensures platform == Linux ==>
              var diff := LinuxDelta(statBefore, statAfter, parse);
              var total := SumPresent(diff);
              && (NoneSet(cfg.flags) ==> r.value == TotalBusy(diff, total) && r.name == Some(TotalCheckName))
              && (forall k: nat :: LastSet(cfg.flags, k) ==>
                    r.value == Share(diff[k].value, total) && r.name == Some(CheckName(k)))
              && r.message == SummaryLine(TotalBusy(diff, total), Percentages(diff, total), round2)
  {
    var checked: real;
    var name: Option<string>;
    var msg: string;
    match platform {
      case Linux =>
        var before := LinuxSampler.LinuxCpuStats(statBefore, parse);
        var after := LinuxSampler.LinuxCpuStats(statAfter, parse);
        var diff, total := ComputeDelta(before.value, after.value);
        assert diff == Delta(before.value, after.value);
        var pct := ComputePercentages(diff, total);
        var busy := TotalBusy(diff, total);
        var selected;
        checked, selected := SelectMetric(cfg.flags, busy, pct);
        name := Some(selected);
        msg := BuildMessage(busy, pct, round2);
      case FreeBsd =>
        checked := FreeBsdSampler.FreeBsdCpuStats(vmstat, isHeader, toF);
        name := None;
        msg := "total=" + show(checked);
    }
    r := CheckResult(Classify(checked, cfg.warn, cfg.crit), name, checked, msg);
  }

  /** On Linux with no flag set the checked value is total busy, which is
      100 minus the idle percentage, and the nine percentages add up to 100. */
  lemma LinuxTotalIsBusy(statBefore: seq<Line>, statAfter: seq<Line>,
                         parse: string -> int)
    requires LinuxSamplesUsable(statBefore, statAfter, parse)
    ensures var diff := LinuxDelta(statBefore, statAfter, parse);
            var total := SumPresent(diff);
            && TotalBusy(diff, total) == 100.0 - Percentages(diff, total)[IdleIndex]
            && SumReals(Percentages(diff, total)) == 100.0
  {
    var diff := LinuxDelta(statBefore, statAfter, parse);
    BusyPlusIdleIs100(diff, SumPresent(diff));
    PercentagesSumTo100(diff);
  }
}
