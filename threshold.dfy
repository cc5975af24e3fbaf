/** Classification of the checked value against the two thresholds. */
module Threshold {
  datatype Status = Ok | Warning | Critical

  /** Critical if above `crit`, else warning if above `warn`, else ok; both
      comparisons are strict. */
  function Classify(value: real, warn: real, crit: real): (s: Status)
    ensures s == Critical <==> value > crit
    ensures s == Warning <==> value <= crit && value > warn
    ensures s == Ok <==> value <= crit && value <= warn
  {
    if value > crit then Critical
    else if value > warn then Warning
    else Ok
  }

  /** Severity order: ok below warning below critical. */
  function Severity(s: Status): nat
  {
    match s
    case Ok => 0
    case Warning => 1
    case Critical => 2
  }

  /** A larger value is never classified less severe. */
  lemma ClassifyMonotone(v1: real, v2: real, warn: real, crit: real)
    requires v1 <= v2
    ensures Severity(Classify(v1, warn, crit)) <= Severity(Classify(v2, warn, crit))
  {
  }

  /** A value equal to a threshold does not trip that threshold. */
  lemma ThresholdsAreStrict(warn: real, crit: real)
    ensures Classify(warn, warn, crit) != Warning
    ensures Classify(crit, warn, crit) != Critical
  {
  }

  /** With `crit` at or below `warn` no value is classified warning: anything
      above `crit` is critical, everything else ok. */
  lemma NoWarningWhenCritNotAboveWarn(value: real, warn: real, crit: real)
    requires crit <= warn
    ensures Classify(value, warn, crit) != Warning
  {
  }
}
