/** One log event, as the sink receives it. */
module LogEntries {
  import opened Foundation
  import opened Levels

  /** Swift's 64-bit `UInt`. */
  type UInt = n: int | 0 <= n < 0x1_0000_0000_0000_0000

  /**
   `LogEntry`: every field is a `let`, so a value never changes once built.
   `functionName` stands for the source's `function` field, a Dafny keyword.
   */
  datatype LogEntry = LogEntry(
    timestamp: Date,
    level: Level,
    message: string,
    metadata: Metadata,
    source: string,
    file: string,
    functionName: string,
    line: UInt)

  /** Two entries that differ at most in where they were logged from. */
  predicate SameEvent(a: LogEntry, b: LogEntry) {
    a.timestamp == b.timestamp && a.level == b.level && a.message == b.message && a.metadata == b.metadata
  }
}
