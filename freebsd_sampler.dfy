/** The sampler for FreeBSD: reads the output of `vmstat`, skips its header
    lines and adds the user and system percentages of the last data line. */
module FreeBsdSampler {
  import opened Wrappers
  import opened Lines

  /** The last three fields of a line as (us, sy, id). Ruby's `fields[-3..-1]`
      is nil when there are fewer than three fields, and assigning nil to the
      three variables leaves each of them nil. */
  function LastThree(fields: Line): (Option<string>, Option<string>, Option<string>)
  {
    var n := |fields|;
    if n < 3 then (None, None, None)
    else (Some(fields[n - 3]), Some(fields[n - 2]), Some(fields[n - 1]))
  }

  /** Ruby's `to_f` on one of the variables: both the initial `0` and nil give 0. */
  function ToF(v: Option<string>, toF: string -> real): real
  {
    match v
    case None => 0.0
    case Some(s) => toF(s)
  }

  /** The values of (us, sy, id) once the loop has read `lines`. */
  function Fields(lines: seq<Line>, isHeader: Line -> bool): (Option<string>, Option<string>, Option<string>)
  {
    if |lines| == 0 then (None, None, None)
    else if isHeader(lines[|lines| - 1]) then Fields(lines[..|lines| - 1], isHeader)
    else LastThree(lines[|lines| - 1])
  }

  /** The busy percentage the sampler reports: us + sy. */
  function Usage(lines: seq<Line>, isHeader: Line -> bool, toF: string -> real): real
  {
    var (us, sy, _) := Fields(lines, isHeader);
    ToF(us, toF) + ToF(sy, toF)
  }

  /** `get_cpu_stats` on FreeBSD: overwrite us, sy, id on every data line,
      then return us + sy. */
  method FreeBsdCpuStats(lines: seq<Line>, isHeader: Line -> bool, toF: string -> real)
    returns (usage: real)
    ensures usage == Usage(lines, isHeader, toF)
  {
    var us: Option<string>, sy: Option<string>, id: Option<string> := None, None, None;
    var k := 0;
    while k < |lines|
      invariant 0 <= k <= |lines|
      invariant (us, sy, id) == Fields(lines[..k], isHeader)
    {
      assert lines[..k + 1][..k] == lines[..k];
      if !isHeader(lines[k]) {
        us, sy, id := LastThree(lines[k]).0, LastThree(lines[k]).1, LastThree(lines[k]).2;
      }
      k := k + 1;
    }
    assert lines[..|lines|] == lines;
    usage := ToF(us, toF) + ToF(sy, toF);
  }

  /** The result is taken from the last data line: the sum of its third- and
      second-last fields, or 0 when it has fewer than three fields. */
  lemma {:induction false} UsageFromLastDataLine(lines: seq<Line>, isHeader: Line -> bool,
                                                toF: string -> real, k: nat)
    requires k < |lines| && !isHeader(lines[k])
    requires forall j :: k < j < |lines| ==> isHeader(lines[j])
    ensures Usage(lines, isHeader, toF) ==
            var n := |lines[k]|;
            if n < 3 then 0.0 else toF(lines[k][n - 3]) + toF(lines[k][n - 2])
    ensures Fields(lines, isHeader) == LastThree(lines[k])
  {
    if k < |lines| - 1 {
      var init := lines[..|lines| - 1];
      assert init[k] == lines[k];
      forall j | k < j < |init| ensures isHeader(init[j]) {
        assert init[j] == lines[j];
      }
      UsageFromLastDataLine(init, isHeader, toF, k);
    }
  }

  /** Without a data line the initial values survive and the result is 0. */
  lemma {:induction false} UsageWithoutDataLine(lines: seq<Line>, isHeader: Line -> bool, toF: string -> real)
    requires forall j :: 0 <= j < |lines| ==> isHeader(lines[j])
    ensures Usage(lines, isHeader, toF) == 0.0
    ensures Fields(lines, isHeader) == (None, None, None)
  {
    if |lines| > 0 {
      var init := lines[..|lines| - 1];
      forall j | 0 <= j < |init| ensures isHeader(init[j]) {
        assert init[j] == lines[j];
      }
      UsageWithoutDataLine(init, isHeader, toF);
    }
  }
}
