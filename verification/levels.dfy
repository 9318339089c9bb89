/** swift-log's `Logger.Level`: seven severities ordered as declared. */
module Levels {

  datatype Level = Trace | Debug | Info | Notice | Warning | Error | Critical

  function Rank(l: Level): (r: nat)
    ensures r < 7
  {
    match l
    case Trace => 0
    case Debug => 1
    case Info => 2
    case Notice => 3
    case Warning => 4
    case Error => 5
    case Critical => 6
  }

  /** Swift's `a >= b` on levels. */
  predicate AtLeast(a: Level, b: Level) {
    Rank(a) >= Rank(b)
  }

  /** `"\(level)"`: the case name. */
  function Name(l: Level): string {
    match l
    case Trace => "trace"
    case Debug => "debug"
    case Info => "info"
    case Notice => "notice"
    case Warning => "warning"
    case Error => "error"
    case Critical => "critical"
  }

  /** The declared order, from least to most severe. */
  lemma LevelsInDeclarationOrder()
    ensures Rank(Trace) < Rank(Debug) < Rank(Info) < Rank(Notice)
          < Rank(Warning) < Rank(Error) < Rank(Critical)
  {
  }

  /** The order is total and the names tell the levels apart. */
  lemma LevelsAreOrderedAndNamed(a: Level, b: Level)
    ensures AtLeast(a, b) || AtLeast(b, a)
    ensures AtLeast(a, b) && AtLeast(b, a) ==> a == b
    ensures Name(a) == Name(b) ==> a == b
  {
  }
}
