/** Choice of the checked value: total busy by default, or the percentage of
    a mode whose flag is set, the last set flag in mode order winning. */
module MetricSelection {
  import opened CpuModes

  /** Ruby's `upcase` on the ASCII letters of a mode name. */
  function Upcase(s: string): string
  {
    seq(|s|, i requires 0 <= i < |s| =>
      if 'a' <= s[i] <= 'z' then (s[i] as int - 32) as char else s[i])
  }

  const TotalCheckName: string := "CheckCPU TOTAL"

  /** The check name when mode `k` is selected. */
  function CheckName(k: nat): string
    requires k < ModeCount
  {
    "CheckCPU " + Upcase(ModeNames[k])
  }

  /** No mode flag is set. */
  predicate NoneSet(flags: seq<bool>)
  {
    forall i :: 0 <= i < |flags| ==> !flags[i]
  }

  /** `k` is the last set flag. */
  predicate LastSet(flags: seq<bool>, k: nat)
  {
    k < |flags| && flags[k] && forall j :: k < j < |flags| ==> !flags[j]
  }

  /** The flag loop of `run`: start from total busy and the name
      `CheckCPU TOTAL`, and overwrite both for every mode whose flag is set. */
  method SelectMetric(flags: seq<bool>, busy: real, pct: seq<real>) returns (checked: real, name: string)
    requires |flags| == ModeCount && |pct| == ModeCount
    ensures NoneSet(flags) ==> checked == busy && name == TotalCheckName
    ensures forall k: nat :: LastSet(flags, k) ==> checked == pct[k] && name == CheckName(k)
  {
    checked, name := busy, TotalCheckName;
    for i := 0 to ModeCount
      invariant NoneSet(flags[..i]) ==> checked == busy && name == TotalCheckName
      invariant forall k: nat :: LastSet(flags[..i], k) ==> checked == pct[k] && name == CheckName(k)
    {
      if flags[i] {
        name := CheckName(i);
        checked := pct[i];
      }
      LastSetStep(flags, i);
    }
    assert flags[..ModeCount] == flags;
  }

  /** How the last set flag of a prefix changes when the prefix grows by one. */
  lemma LastSetStep(flags: seq<bool>, i: nat)
    requires i < |flags|
    ensures NoneSet(flags[..i + 1]) <==> NoneSet(flags[..i]) && !flags[i]
    ensures forall k: nat :: LastSet(flags[..i + 1], k) <==>
              if flags[i] then k == i else LastSet(flags[..i], k)
  {
    var longer, shorter := flags[..i + 1], flags[..i];
    assert forall j :: 0 <= j < i ==> longer[j] == shorter[j];
    assert longer[i] == flags[i];
    forall k: nat ensures LastSet(longer, k) <==> if flags[i] then k == i else LastSet(shorter, k) {
      if !flags[i] && LastSet(shorter, k) {
        forall j | k < j < |longer| ensures !longer[j] {
          if j < i { assert !shorter[j]; }
        }
      }
    }
  }

  /** Exactly one of the two cases of the selection applies. */
  lemma {:induction false} NoneSetOrLastSet(flags: seq<bool>)
    ensures NoneSet(flags) <==> forall k: nat :: !LastSet(flags, k)
    ensures !NoneSet(flags) ==> exists k: nat :: LastSet(flags, k)
  {
    if |flags| > 0 {
      var n := |flags| - 1;
      NoneSetOrLastSet(flags[..n]);
      if !flags[n] && !NoneSet(flags) {
        assert !NoneSet(flags[..n]) by {
          var i :| 0 <= i < |flags| && flags[i];
          assert flags[..n][i] == flags[i];
        }
        var k :| LastSet(flags[..n], k);
        assert LastSet(flags, k);
      }
      if !NoneSet(flags) && flags[n] {
        assert LastSet(flags, n);
      }
    }
  }

  /** The check names of the nine modes. */
  lemma CheckNames()
    ensures CheckName(0) == "CheckCPU USER" && CheckName(1) == "CheckCPU NICE"
    ensures CheckName(2) == "CheckCPU SYSTEM" && CheckName(3) == "CheckCPU IDLE"
    ensures CheckName(4) == "CheckCPU IOWAIT" && CheckName(5) == "CheckCPU IRQ"
    ensures CheckName(6) == "CheckCPU SOFTIRQ" && CheckName(7) == "CheckCPU STEAL"
    ensures CheckName(8) == "CheckCPU GUEST"
  {
  }
}
