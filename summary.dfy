/** The summary line: `total=<busy>` followed by ` <mode>=<percentage>` for
    each of the nine modes in mode order. Number formatting is the parameter
    `fmt` (Ruby's `round(2)` and string conversion). */
module Summary {
  import opened CpuModes

  /** One ` <mode>=<value>` entry. */
  function Entry(k: nat, pct: seq<real>, fmt: real -> string): string
    requires k < ModeCount && k < |pct|
  {
    " " + ModeNames[k] + "=" + fmt(pct[k])
  }

  /** The entries of the first `n` modes, in mode order. */
  function ModeEntries(pct: seq<real>, fmt: real -> string, n: nat): string
    requires n <= ModeCount && n <= |pct|
  {
    if n == 0 then "" else ModeEntries(pct, fmt, n - 1) + Entry(n - 1, pct, fmt)
  }

  /** The whole summary line. */
  function SummaryLine(busy: real, pct: seq<real>, fmt: real -> string): string
    requires |pct| == ModeCount
  {
    "total=" + fmt(busy) + ModeEntries(pct, fmt, ModeCount)
  }

  /** The message loop of `run`: start with the total and append one entry
      per mode. */
  method BuildMessage(busy: real, pct: seq<real>, fmt: real -> string) returns (msg: string)
    requires |pct| == ModeCount
    ensures msg == SummaryLine(busy, pct, fmt)
    ensures msg[..6] == "total="
  {
    msg := "total=" + fmt(busy);
    for i := 0 to ModeCount
      invariant msg == "total=" + fmt(busy) + ModeEntries(pct, fmt, i)
    {
      msg := msg + Entry(i, pct, fmt);
    }
  }

  /** Entries come in mode order: the entries of the first `m` modes are a
      prefix of those of the first `n`, and mode `m`'s entry follows them
      directly. */
  lemma {:induction false} EntriesInModeOrder(pct: seq<real>, fmt: real -> string, m: nat, n: nat)
    requires m < n <= ModeCount && n <= |pct|
    ensures ModeEntries(pct, fmt, m) + Entry(m, pct, fmt) <= ModeEntries(pct, fmt, n)
  {
    if m + 1 < n {
      EntriesInModeOrder(pct, fmt, m, n - 1);
      var p := ModeEntries(pct, fmt, m) + Entry(m, pct, fmt);
      var q := ModeEntries(pct, fmt, n - 1);
      assert q + Entry(n - 1, pct, fmt) == ModeEntries(pct, fmt, n);
      assert (q + Entry(n - 1, pct, fmt))[..|p|] == q[..|p|];
    }
  }

  /** The summary begins with the total busy entry and then the entry of the
      first mode, `user`. */
  lemma SummaryStartsWithTotalThenUser(busy: real, pct: seq<real>, fmt: real -> string)
    requires |pct| == ModeCount
    ensures "total=" + fmt(busy) + " user=" + fmt(pct[0]) <= SummaryLine(busy, pct, fmt)
  {
    EntriesInModeOrder(pct, fmt, 0, ModeCount);
    var head := "total=" + fmt(busy);
    var p := " user=" + fmt(pct[0]);
    var rest := ModeEntries(pct, fmt, ModeCount);
    assert p <= rest;
    assert (head + rest)[..|head| + |p|] == head + rest[..|p|];
  }
}
