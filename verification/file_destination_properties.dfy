/** Properties of the sink that relate several of its operations. */
module FileDestinationProperties {
  import opened Wrappers
  import opened Foundation
  import opened Levels
  import opened LogEntries
  import opened Formatting
  import opened Filtering
  import opened Directories
  import opened Cleanup
  import opened FileDestination

  /** The handler's own metadata never reaches the entry `log` builds. */
  lemma HandlerMetadataNotConsulted(s: Sink, m: Metadata, level: Level, message: string, metadata: Option<Metadata>,
                                    source: string, file: string, functionName: string, line: UInt, now: Date)
    ensures Log(s, level, message, metadata, source, file, functionName, line, now)
         == Log(s.(metadata := m), level, message, metadata, source, file, functionName, line, now)
  {
  }

  /** The `>=` gate at `warning`: `info` is dropped, `warning` and `error` are scheduled. */
  lemma WarningGate(s: Sink, message: string, metadata: Option<Metadata>,
                    source: string, file: string, functionName: string, line: UInt, now: Date)
    requires s.logLevel == Warning
    ensures Log(s, Info, message, metadata, source, file, functionName, line, now).None?
    ensures Log(s, Warning, message, metadata, source, file, functionName, line, now).Some?
    ensures Log(s, Error, message, metadata, source, file, functionName, line, now).Some?
  {
  }

  /**
   A line that fits, including one that fills the file exactly, goes to the
   current file: no rotation, and the counter stays within `maxFileSize`.
   */
  lemma WithinLimitWritesToCurrentFile(s: Sink, host: Host, e: LogEntry, io: EntryIO)
    requires WriteAdmissible(s, host, e, io)
    requires s.currentFileSize + |LineBytes(s, host, e, io.metadataOrder)| <= s.config.maxFileSize
    ensures var r := WriteLogEntry(s, host, e, io);
      && r.currentFilename == s.currentFilename && r.handle == s.handle
      && r.dir.Keys == s.dir.Keys
      && (s.handle.None? || io.writeOk ==> r.currentFileSize <= s.config.maxFileSize)
      && (s.handle.Some? && io.writeOk && s.handle.value.path in s.dir ==>
            r.dir[s.handle.value.path].bytes == s.dir[s.handle.value.path].bytes + LineBytes(s, host, e, io.metadataOrder))
  {
  }

  /** The strict `>`: a line that brings the file exactly to `maxFileSize` does not rotate. */
  lemma ExactFitDoesNotRotate(s: Sink, host: Host, e: LogEntry, io: EntryIO)
    requires WriteAdmissible(s, host, e, io)
    requires s.handle.Some? && io.writeOk
    requires s.currentFileSize + |LineBytes(s, host, e, io.metadataOrder)| == s.config.maxFileSize
    ensures var r := WriteLogEntry(s, host, e, io);
      r.currentFilename == s.currentFilename && r.currentFileSize == s.config.maxFileSize
  {
  }

  /**
   A line that would overflow is written after the rotation: it lands in the
   new file, right after the header, with no second size check, and the file
   that was current is left as it was.
   */
  lemma OverflowGoesToNextFile(s: Sink, host: Host, e: LogEntry, io: EntryIO)
    requires WriteAdmissible(s, host, e, io)
    requires RotationFires(s, host, e, io.metadataOrder)
    requires Opens(io.rotation) && io.writeOk
    ensures var r := WriteLogEntry(s, host, e, io);
      var line := LineBytes(s, host, e, io.metadataOrder);
      var header := if io.rotation.headerWriteOk then HeaderBytes(host, s.config, io.rotation.headerNow) else [];
      && r.currentFilename == GenerateFilename(host, s.config, io.rotation.now)
      && r.handle == Some(FileHandle(r.currentFilename))
      && r.currentFileSize == |header| + |line|
      && (r.currentFilename in r.dir ==> r.dir[r.currentFilename].bytes == header + line)
      && (s.currentFilename != r.currentFilename && s.currentFilename in r.dir ==>
            r.dir[s.currentFilename] == s.dir[s.currentFilename])
  {
    var mid := RotateLogFile(s, host, io.rotation);
    var next := OpenNextFile(s, host, io.rotation);
    assert mid.handle == Some(FileHandle(mid.currentFilename));
    if mid.currentFilename in mid.dir {
      assert mid.dir[mid.currentFilename] == next.dir[next.currentFilename];
    }
  }

  /**
   When the rotation's open throws, no handle is held, nothing is written, and
   the counter still grows by the line: it keeps its old value through the
   failed rotation and the write through the missing handle adds to it.
   */
  lemma FailedOpenStillCounts(s: Sink, host: Host, e: LogEntry, io: EntryIO)
    requires WriteAdmissible(s, host, e, io)
    requires RotationFires(s, host, e, io.metadataOrder)
    requires !Opens(io.rotation)
    ensures var r := WriteLogEntry(s, host, e, io);
      && r.handle.None? && (Valid(s) ==> r.heldDescriptors == 0)
      && r.currentFileSize == s.currentFileSize + |LineBytes(s, host, e, io.metadataOrder)|
      && r.dir == RotateLogFile(s, host, io.rotation).dir
  {
  }

  /** Every file the sink creates is a `log-` file, so the new current file is in cleanup's listing. */
  lemma NewFileCountsTowardRetention(s: Sink, host: Host, io: RotationIO)
    requires RotationAdmissible(s, host, io)
    requires io.listOk && io.createOk
    ensures RotateLogFile(s, host, io).currentFilename in io.order
  {
    var next := OpenNextFile(s, host, io);
    assert next.currentFilename in LogNames(next.dir);
  }

  /**
   With `maxFiles == 0` the file just opened is deleted by its own cleanup,
   while the handle to it stays open.
   */
  lemma ZeroRetentionDeletesNewFile(s: Sink, host: Host, io: RotationIO)
    requires RotationAdmissible(s, host, io)
    requires s.config.maxFiles == 0
    requires io.listOk && io.createOk
    requires io.deleteFailures !! LogNames(OpenNextFile(s, host, io).dir)
    ensures var r := RotateLogFile(s, host, io);
      r.currentFilename !in r.dir && (r.handle.Some? <==> io.openOk)
  {
    var next := OpenNextFile(s, host, io);
    var r := RotateLogFile(s, host, io);
    RetentionBound(next.dir, 0, io.order, io.deleteFailures);
    assert next.currentFilename in LogNames(next.dir);
    assert r.currentFilename !in LogNames(r.dir);
  }

  /**
   After a rotation whose listing succeeds and whose deletions do not fail,
   at most `maxFiles` `log-` files remain, and they are the newest.
   */
  lemma RetentionAfterRotation(s: Sink, host: Host, io: RotationIO)
    requires RotationAdmissible(s, host, io)
    requires io.listOk
    requires io.deleteFailures !! LogNames(OpenNextFile(s, host, io).dir)
    ensures var r := RotateLogFile(s, host, io);
      var before := OpenNextFile(s, host, io).dir;
      && |LogNames(r.dir)| == Min(|LogNames(before)|, s.config.maxFiles)
      && |LogNames(r.dir)| <= s.config.maxFiles
      && forall a :: a in LogNames(r.dir) ==> |NewerThan(before, a)| < s.config.maxFiles
  {
    var before := OpenNextFile(s, host, io).dir;
    RetentionBound(before, s.config.maxFiles, io.order, io.deleteFailures);
    KeptAreTheNewest(before, s.config.maxFiles, io.order, io.deleteFailures);
  }

  /** A `maxFileSize` of zero or less, which the configuration accepts, rotates before every line. */
  lemma NonPositiveLimitAlwaysRotates(s: Sink, host: Host, e: LogEntry, order: seq<string>)
    requires Valid(s) && s.config.maxFileSize <= 0
    requires IsKeyOrder(e.metadata, order)
    ensures RotationFires(s, host, e, order)
  {
  }

  /**
   Filtering and formatting read only the timestamp, level, message and
   metadata: entries that differ in source, file, function or line have the
   same effect.
   */
  lemma OriginIsIgnored(s: Sink, host: Host, a: LogEntry, b: LogEntry, io: EntryIO)
    requires SameEvent(a, b)
    requires ProcessAdmissible(s, host, a, io)
    ensures ShouldWriteEntryToFile(a, host.lower) == ShouldWriteEntryToFile(b, host.lower)
    ensures ProcessAdmissible(s, host, b, io)
    ensures ProcessLogEntry(s, host, a, io) == ProcessLogEntry(s, host, b, io)
  {
    assert a.metadata == b.metadata;
    if ShouldWriteEntryToFile(a, host.lower) {
      assert LineHead(host, s.config.timeZone, a) == LineHead(host, s.config.timeZone, b);
      assert LineBytes(s, host, a, io.metadataOrder) == LineBytes(s, host, b, io.metadataOrder);
    }
  }

  /** Whether the environment admits processing every entry of a run, one after the other. */
  predicate RunAdmissible(s: Sink, host: Host, entries: seq<LogEntry>, ios: seq<EntryIO>)
    decreases |entries|
  {
    && |entries| == |ios|
    && (|entries| > 0 ==>
          && ProcessAdmissible(s, host, entries[0], ios[0])
          && RunAdmissible(ProcessLogEntry(s, host, entries[0], ios[0]), host, entries[1..], ios[1..]))
  }

  /** The actor processing a run of entries, one at a time. */
  function Run(s: Sink, host: Host, entries: seq<LogEntry>, ios: seq<EntryIO>): (r: Sink)
    requires RunAdmissible(s, host, entries, ios)
    ensures Valid(s) ==> Valid(r) && r.heldDescriptors <= 1
    ensures Valid(s) ==> forall n :: !IsLogName(n) ==> SameEntry(s.dir, r.dir, n)
    decreases |entries|
  {
    if |entries| == 0 then s
    else Run(ProcessLogEntry(s, host, entries[0], ios[0]), host, entries[1..], ios[1..])
  }
}
