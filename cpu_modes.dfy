/** The fixed list of CPU modes the check knows about, in the order in
    which the kernel's stat file lists their counters. */
module CpuModes {
  /** Number of modes the check reads. */
  const ModeCount: nat := 9

  /** Position of the idle counter in the mode order. */
  const IdleIndex: nat := 3

  /** Mode names as they appear in the summary and in the `--<mode>` flags. */
  const ModeNames: seq<string> :=
    ["user", "nice", "system", "idle", "iowait", "irq", "softirq", "steal", "guest"]
}
