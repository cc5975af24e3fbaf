/** The sampler for Linux: scans the lines of the kernel's stat file for the
    aggregate `cpu` row and returns its counters. */
module LinuxSampler {
  import opened Wrappers
  import opened Lines

  /** The line is the aggregate row: its first token is exactly `cpu`. */
  predicate IsAggregateRow(line: Line)
  {
    |line| > 0 && line[0] == "cpu"
  }

  /** Every line the scan reads, that is every line up to and including the
      first aggregate row, has a first token (an empty line there would make
      the source call `match` on nil). Lines after that row are never read. */
  predicate ReadableToCpuRow(lines: seq<Line>)
  {
    |lines| == 0 || (|lines[0]| > 0 && (lines[0][0] == "cpu" || ReadableToCpuRow(lines[1..])))
  }

  /** The counter tokens of a row converted to numbers, one by one. */
  function ParseAll(tokens: seq<string>, parse: string -> int): seq<int>
  {
    seq(|tokens|, i requires 0 <= i < |tokens| => parse(tokens[i]))
  }

  /** The counters of the first aggregate row, `None` when there is none. */
  function CpuRow(lines: seq<Line>, parse: string -> int): Option<seq<int>>
    requires ReadableToCpuRow(lines)
  {
    if |lines| == 0 then None
    else if IsAggregateRow(lines[0]) then Some(ParseAll(lines[0][1..], parse))
    else CpuRow(lines[1..], parse)
  }

  /** `get_cpu_stats` on Linux: walk the lines and return at the first
      aggregate row. `None` stands for falling off the end of the file. */
  method LinuxCpuStats(lines: seq<Line>, parse: string -> int) returns (stats: Option<seq<int>>)
    requires ReadableToCpuRow(lines)
    ensures stats == CpuRow(lines, parse)
  {
    var k := 0;
    while k < |lines|
      invariant 0 <= k <= |lines|
      invariant ReadableToCpuRow(lines[k..])
      invariant CpuRow(lines[k..], parse) == CpuRow(lines, parse)
    {
      var info := lines[k];
      var name := info[0];
      if name == "cpu" {
        return Some(ParseAll(info[1..], parse));
      }
      assert lines[k..][1..] == lines[k + 1..];
      k := k + 1;
    }
    return None;
  }

  /** The row found is the first aggregate row, and there is none exactly
      when no line is an aggregate row. */
  lemma {:induction false} CpuRowIsFirstAggregateRow(lines: seq<Line>, parse: string -> int)
    requires ReadableToCpuRow(lines)
    ensures CpuRow(lines, parse).None? <==> forall k :: 0 <= k < |lines| ==> !IsAggregateRow(lines[k])
    ensures forall k :: 0 <= k < |lines| && IsAggregateRow(lines[k]) &&
                        (forall j :: 0 <= j < k ==> !IsAggregateRow(lines[j])) ==>
                        CpuRow(lines, parse) == Some(ParseAll(lines[k][1..], parse))
  {
    if |lines| > 0 && !IsAggregateRow(lines[0]) {
      CpuRowIsFirstAggregateRow(lines[1..], parse);
      forall k | 0 <= k < |lines| && IsAggregateRow(lines[k]) &&
                 (forall j :: 0 <= j < k ==> !IsAggregateRow(lines[j]))
        ensures CpuRow(lines, parse) == Some(ParseAll(lines[k][1..], parse))
      {
        assert k > 0;
        assert lines[1..][k - 1] == lines[k];
        forall j | 0 <= j < k - 1 ensures !IsAggregateRow(lines[1..][j]) {
          assert lines[1..][j] == lines[j + 1];
        }
      }
      if CpuRow(lines, parse).None? {
        forall k | 0 <= k < |lines| ensures !IsAggregateRow(lines[k]) {
          if k > 0 { assert lines[1..][k - 1] == lines[k]; }
        }
      }
    }
  }

  /** A per-core row (`cpu0`, `cpu1`, ...) in front of the file changes nothing. */
  lemma PerCoreRowIsSkipped(core: Line, lines: seq<Line>, parse: string -> int)
    requires |core| > 0 && |core[0]| > 3 && core[0][..3] == "cpu"
    requires ReadableToCpuRow(lines)
    ensures ReadableToCpuRow([core] + lines)
    ensures CpuRow([core] + lines, parse) == CpuRow(lines, parse)
  {
  }

  /** Lines after the first aggregate row, including later `cpu` rows and
      empty lines, are never read. */
  lemma {:induction false} LaterLinesIgnored(lines: seq<Line>, more: seq<Line>, parse: string -> int)
    requires ReadableToCpuRow(lines)
    requires CpuRow(lines, parse).Some?
    ensures ReadableToCpuRow(lines + more)
    ensures CpuRow(lines + more, parse) == CpuRow(lines, parse)
  {
    assert (lines + more)[0] == lines[0];
    if lines[0][0] != "cpu" {
      assert (lines + more)[1..] == lines[1..] + more;
      LaterLinesIgnored(lines[1..], more, parse);
    }
  }
}
