/** Per-mode differences between two samples, their percentages of the total
    difference, and the total busy percentage. */
module CpuUsage {
  import opened Wrappers
  import opened CpuModes

  /** Every counter the later sample has among the nine modes is also in the
      earlier sample (otherwise the subtraction raises on nil). */
  predicate Comparable(before: seq<int>, after: seq<int>)
  {
    |after| <= |before| || ModeCount <= |before|
  }

  /** The difference of one mode, absent when the later sample lacks it. */
  function Delta(before: seq<int>, after: seq<int>): seq<Option<int>>
    requires Comparable(before, after)
  {
    seq(ModeCount, i requires 0 <= i < ModeCount =>
      if i < |after| then Some(after[i] - before[i]) else None)
  }

  /** Sum of the present differences; absent ones add nothing. */
  function SumPresent(diff: seq<Option<int>>): int
  {
    if |diff| == 0 then 0
    else
      SumPresent(diff[..|diff| - 1]) +
      (match diff[|diff| - 1] case Some(d) => d case None => 0)
  }

  function SumInts(s: seq<int>): int
  {
    if |s| == 0 then 0 else SumInts(s[..|s| - 1]) + s[|s| - 1]
  }

  function SumReals(s: seq<real>): real
  {
    if |s| == 0 then 0.0 else SumReals(s[..|s| - 1]) + s[|s| - 1]
  }

  /** The first loop of `run`: for each of the nine modes the later sample
      has, record the difference and add it to the total. */
  method ComputeDelta(before: seq<int>, after: seq<int>) returns (diff: seq<Option<int>>, total: int)
    requires Comparable(before, after)
    ensures |diff| == ModeCount
    ensures forall i :: 0 <= i < ModeCount ==>
              diff[i] == if i < |after| then Some(after[i] - before[i]) else None
    ensures total == SumPresent(diff)
  {
    diff, total := [], 0;
    for i := 0 to ModeCount
      invariant |diff| == i
      invariant forall j :: 0 <= j < i ==>
                  diff[j] == if j < |after| then Some(after[j] - before[j]) else None
      invariant total == SumPresent(diff)
    {
      if i < |after| {
        var d := after[i] - before[i];
        assert (diff + [Some(d)])[..i] == diff;
        diff := diff + [Some(d)];
        total := total + d;
      } else {
        assert (diff + [None])[..i] == diff;
        diff := diff + [None];
      }
    }
  }

  /** The total difference is the sum of the later sample's counters minus
      the sum of the earlier one's, over the modes the later sample has
      among the first nine; counters past the ninth never count. */
  lemma {:induction false} DeltaTotalIsDifferenceOfSums(before: seq<int>, after: seq<int>)
    requires Comparable(before, after)
    ensures var p := if |after| < ModeCount then |after| else ModeCount;
            SumPresent(Delta(before, after)) == SumInts(after[..p]) - SumInts(before[..p])
  {
    var d := Delta(before, after);
    assert d[..ModeCount] == d;
    DeltaPrefixSum(before, after, ModeCount);
  }

  lemma {:induction false} DeltaPrefixSum(before: seq<int>, after: seq<int>, n: nat)
    requires Comparable(before, after) && n <= ModeCount
    ensures var p := if |after| < n then |after| else n;
            SumPresent(Delta(before, after)[..n]) == SumInts(after[..p]) - SumInts(before[..p])
  {
    if n > 0 {
      var d := Delta(before, after);
      DeltaPrefixSum(before, after, n - 1);
      assert d[..n][..n - 1] == d[..n - 1];
      if n <= |after| {
        assert after[..n][..n - 1] == after[..n - 1];
        assert before[..n][..n - 1] == before[..n - 1];
      }
    }
  }

  /** Counters the later sample has beyond the nine modes never matter. */
  lemma ExtraCountersIgnored(before: seq<int>, after: seq<int>, extra: seq<int>)
    requires ModeCount <= |after| && Comparable(before, after)
    ensures Comparable(before, after + extra)
    ensures Delta(before, after + extra) == Delta(before, after)
  {
  }

  /** All nine differences are present. */
  predicate AllPresent(diff: seq<Option<int>>)
  {
    forall i :: 0 <= i < |diff| ==> diff[i].Some?
  }

  /** One difference as a percentage of the total. */
  function Share(d: int, total: int): real
    requires total != 0
  {
    100.0 * (d as real / total as real)
  }

  /** The percentages of all nine modes. */
  function Percentages(diff: seq<Option<int>>, total: int): seq<real>
    requires |diff| == ModeCount && AllPresent(diff) && total != 0
  {
    seq(ModeCount, i requires 0 <= i < ModeCount => Share(diff[i].value, total))
  }

  /** The second loop of `run`: each difference as a percentage of the total. */
  method ComputePercentages(diff: seq<Option<int>>, total: int) returns (pct: seq<real>)
    requires |diff| == ModeCount && AllPresent(diff) && total != 0
    ensures pct == Percentages(diff, total)
    ensures SumReals(pct) == 100.0 * (SumPresent(diff) as real / total as real)
  {
    pct := [];
    for i := 0 to ModeCount
      invariant |pct| == i
      invariant forall j :: 0 <= j < i ==> pct[j] == Share(diff[j].value, total)
    {
      pct := pct + [Share(diff[i].value, total)];
    }
    SharesSum(diff, pct, total);
  }

  /** Adding up the shares gives the share of the sum. */
  lemma {:induction false} SharesSum(diff: seq<Option<int>>, pct: seq<real>, total: int)
    requires |pct| == |diff| && AllPresent(diff) && total != 0
    requires forall i :: 0 <= i < |diff| ==> pct[i] == Share(diff[i].value, total)
    ensures SumReals(pct) == 100.0 * (SumPresent(diff) as real / total as real)
  {
    if |diff| > 0 {
      var n := |diff| - 1;
      SharesSum(diff[..n], pct[..n], total);
      var a := SumPresent(diff[..n]) as real;
      var b := diff[n].value as real;
      var t := total as real;
      assert 100.0 * (a / t) + 100.0 * (b / t) == 100.0 * ((a + b) / t);
    }
  }

  /** With the total taken over all nine present differences, the nine
      percentages add up to exactly 100. */
  lemma PercentagesSumTo100(diff: seq<Option<int>>)
    requires |diff| == ModeCount && AllPresent(diff) && SumPresent(diff) != 0
    ensures SumReals(Percentages(diff, SumPresent(diff))) == 100.0
  {
    var total := SumPresent(diff);
    SharesSum(diff, Percentages(diff, total), total);
    assert total as real / total as real == 1.0;
  }

  /** Total busy: the part of the total that is not idle, as a percentage. */
  function TotalBusy(diff: seq<Option<int>>, total: int): real
    requires IdleIndex < |diff| && diff[IdleIndex].Some? && total != 0
  {
    100.0 * (total - diff[IdleIndex].value) as real / total as real
  }

  /** Total busy and the idle percentage make 100. */
  lemma BusyPlusIdleIs100(diff: seq<Option<int>>, total: int)
    requires IdleIndex < |diff| && diff[IdleIndex].Some? && total != 0
    ensures TotalBusy(diff, total) + Share(diff[IdleIndex].value, total) == 100.0
  {
  }

  /** Two samples 200 ticks apart with 50 idle ticks: 25% idle, 75% busy. */
  lemma WorkedExample()
    ensures var before := [100, 0, 50, 850, 0, 0, 0, 0, 0];
            var after := [200, 0, 100, 900, 0, 0, 0, 0, 0];
            var diff := Delta(before, after);
            SumPresent(diff) == 200 &&
            Share(diff[IdleIndex].value, 200) == 25.0 &&
            TotalBusy(diff, 200) == 75.0
  {
    var before := [100, 0, 50, 850, 0, 0, 0, 0, 0];
    var after := [200, 0, 100, 900, 0, 0, 0, 0, 0];
    var diff := Delta(before, after);
    assert diff == [Some(100), Some(0), Some(50), Some(50), Some(0), Some(0), Some(0), Some(0), Some(0)];
    assert diff[..0] == [];
    assert diff[..1][..0] == diff[..0] && diff[..1][0] == diff[0];
    assert SumPresent(diff[..1]) == 100;
    assert diff[..2][..1] == diff[..1] && diff[..2][1] == diff[1];
    assert SumPresent(diff[..2]) == 100;
    assert diff[..3][..2] == diff[..2] && diff[..3][2] == diff[2];
    assert SumPresent(diff[..3]) == 150;
    assert diff[..4][..3] == diff[..3] && diff[..4][3] == diff[3];
    assert SumPresent(diff[..4]) == 200;
    assert diff[..5][..4] == diff[..4] && diff[..5][4] == diff[4];
    assert SumPresent(diff[..5]) == 200;
    assert diff[..6][..5] == diff[..5] && diff[..6][5] == diff[5];
    assert SumPresent(diff[..6]) == 200;
    assert diff[..7][..6] == diff[..6] && diff[..7][6] == diff[6];
    assert SumPresent(diff[..7]) == 200;
    assert diff[..8][..7] == diff[..7] && diff[..8][7] == diff[7];
    assert SumPresent(diff[..8]) == 200;
    assert diff[..9][..8] == diff[..8] && diff[..9][8] == diff[8];
    assert SumPresent(diff[..9]) == 200;
    assert diff[..9] == diff;
  }
}
