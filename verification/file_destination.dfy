/**
 The `FileDestination` actor as a sequential state machine. Actor isolation
 runs one isolated call at a time, so each call is a function from the sink's
 state to its next state. The filesystem's answers (does `createFile`,
 `FileHandle(forWritingTo:)`, a write, the directory listing, a deletion
 succeed?) and the clock are inputs.
 */
module FileDestination {
  import opened Wrappers
  import opened Foundation
  import opened Levels
  import opened Configurations
  import opened LogEntries
  import opened Formatting
  import opened Filtering
  import opened Directories
  import opened Cleanup
  import opened Text
  import Utf8

  /** An open `FileHandle`, writing to the file of that name. */
  datatype FileHandle = FileHandle(path: string)

  /**
   The actor's state. `heldDescriptors` counts the descriptors the process
   holds open on the log directory; the source keeps at most one, in
   `currentFileHandle`.
   */
  datatype Sink = Sink(
    config: Configuration,
    logLevel: Level,
    metadata: Metadata,
    handle: Option<FileHandle>,
    heldDescriptors: int,
    currentFileSize: int,
    currentFilename: string,
    dir: Directory)

  /**
   The sink's invariant: the descriptors held are exactly the one in
   `currentFileHandle`, which writes to the current `log-` file, and the size
   counter is never negative.
   */
  predicate Valid(s: Sink) {
    && s.heldDescriptors == (if s.handle.Some? then 1 else 0)
    && (s.handle.Some? ==> s.handle.value.path == s.currentFilename && IsLogName(s.currentFilename))
    && s.currentFileSize >= 0
  }

  /** What the filesystem and the clock answer during one rotation. */
  datatype RotationIO = RotationIO(
    now: Date,                   // the `Date()` the filename is made from; also the new file's creation date
    headerNow: Date,             // the `Date()` written into the header
    createOk: bool,              // `createFile` made the file
    openOk: bool,                // `FileHandle(forWritingTo:)` did not throw
    headerWriteOk: bool,         // writing the header did not throw
    listOk: bool,                // `contentsOfDirectory` did not throw
    order: seq<string>,          // the filtered listing as `sorted` returned it
    deleteFailures: set<string>) // the files whose `removeItem` throws

  /** What the environment answers while one entry is written. */
  datatype EntryIO = EntryIO(
    metadataOrder: seq<string>,  // the iteration order of the entry's metadata
    rotation: RotationIO,        // used when the entry triggers a rotation
    writeOk: bool)               // writing the line did not throw

  /** `init(config:)` before its setup task runs: no handle, no file, the configured level. */
  function Init(config: Configuration, dir: Directory): (s: Sink)
    ensures Valid(s)
    ensures s.logLevel == config.logLevel && s.config == config
    ensures s.handle.None? && s.heldDescriptors == 0
    ensures s.currentFileSize == 0 && s.currentFilename == "" && |s.metadata| == 0 && s.dir == dir
  {
    Sink(config, config.logLevel, map[], None, 0, 0, "", dir)
  }

  /** The metadata subscript's getter. */
  function GetMetadata(s: Sink, key: string): (v: Option<MetadataValue>)
    ensures v.Some? <==> key in s.metadata
    ensures v.Some? ==> v.value == s.metadata[key]
  {
    if key in s.metadata then Some(s.metadata[key]) else None
  }

  /** The subscript's setter and `setMetadataValue`: a value stores it, `nil` removes the key. */
  function SetMetadata(s: Sink, key: string, v: Option<MetadataValue>): (r: Sink)
    ensures GetMetadata(r, key) == v
    ensures forall k :: k != key ==> GetMetadata(r, k) == GetMetadata(s, k)
    ensures r.(metadata := s.metadata) == s
  {
    match v
    case Some(value) => s.(metadata := s.metadata[key := value])
    case None => s.(metadata := s.metadata - {key})
  }

  /** Assigning the handler's `logLevel`. */
  function SetLogLevel(s: Sink, level: Level): (r: Sink)
    ensures r.logLevel == level
    ensures r.(logLevel := s.logLevel) == s
  {
    s.(logLevel := level)
  }

  /**
   `log`: below the handler's level nothing is built or scheduled; otherwise
   the entry handed to the actor, stamped `now`, with `nil` metadata as empty.
   The handler's own `metadata` is not consulted.
   */
  function Log(s: Sink, level: Level, message: string, metadata: Option<Metadata>,
               source: string, file: string, functionName: string, line: UInt, now: Date): (r: Option<LogEntry>)
    ensures r.None? <==> Rank(level) < Rank(s.logLevel)
    ensures r.Some? ==> && r.value.timestamp == now && r.value.level == level && r.value.message == message
                        && r.value.source == source && r.value.file == file
                        && r.value.functionName == functionName && r.value.line == line
    ensures r.Some? && metadata.Some? ==> r.value.metadata == metadata.value
    ensures r.Some? && metadata.None? ==> r.value.metadata == map[]
  {
    if !AtLeast(level, s.logLevel) then None
    else Some(LogEntry(now, level, message, metadata.GetOr(map[]), source, file, functionName, line))
  }

  /** `closeCurrentFile`: close the handle if there is one and forget it. */
  function CloseCurrentFile(s: Sink): (r: Sink)
    ensures r.handle.None?
    ensures Valid(s) ==> Valid(r) && r.heldDescriptors == 0
    ensures r.(handle := s.handle, heldDescriptors := s.heldDescriptors) == s
  {
    if s.handle.Some? then s.(handle := None, heldDescriptors := s.heldDescriptors - 1)
    else s.(handle := None)
  }

  /** `generateFilename`: `log-`, the timestamp in the configured pattern and zone, `.log`. */
  function GenerateFilename(host: Host, config: Configuration, now: Date): (name: string)
    ensures IsLogName(name) && HasSuffix(name, ".log")
    ensures |name| >= 8 && name[4..|name| - 4] == host.formatDate(config.filenameFormat, config.timeZone, now)
  {
    var stamp := host.formatDate(config.filenameFormat, config.timeZone, now);
    var name := LogPrefix + stamp + ".log";
    assert name[..4] == LogPrefix;
    assert name[4..|name| - 4] == stamp;
    assert name[|name| - 4..] == ".log";
    name
  }

  /**
   `writeData`: through an open handle the bytes land at the end of its file
   and are counted, unless the write throws; with no handle the optional
   chain writes nothing and throws nothing, and the bytes are counted anyway.
   */
  function WriteData(s: Sink, data: seq<Utf8.byte>, ok: bool): (r: Sink)
    ensures r.currentFileSize == s.currentFileSize + (if s.handle.None? || ok then |data| else 0)
    ensures r.(dir := s.dir, currentFileSize := s.currentFileSize) == s
    ensures r.dir.Keys == s.dir.Keys
    ensures s.handle.Some? && ok && s.handle.value.path in s.dir ==>
      r.dir[s.handle.value.path].bytes == s.dir[s.handle.value.path].bytes + data
    ensures forall n :: n in s.dir && !(s.handle.Some? && ok && n == s.handle.value.path) ==> r.dir[n] == s.dir[n]
    ensures forall n :: n in s.dir ==> r.dir[n].creationDate == s.dir[n].creationDate
    ensures Valid(s) ==> Valid(r)
  {
    match s.handle
    case None => s.(currentFileSize := s.currentFileSize + |data|)
    case Some(h) =>
      if ok then s.(dir := AppendBytes(s.dir, h.path, data), currentFileSize := s.currentFileSize + |data|)
      else s
  }

  function HeaderBytes(host: Host, config: Configuration, t: Date): seq<Utf8.byte> {
    Utf8.Encode(HeaderLine(host, config.timeZone, t))
  }

  /** A rotation's open succeeds: `createFile` made the file and the handle opened. */
  predicate Opens(io: RotationIO) {
    io.createOk && io.openOk
  }

  /**
   `rotateLogFileIfNeeded` up to the cleanup: close, name the new file, create
   it, open it, reset the counter and write the header. When the open throws,
   no handle is held and the counter keeps its old value.
   */
  function OpenNextFile(s: Sink, host: Host, io: RotationIO): (r: Sink)
    ensures r.handle.Some? <==> Opens(io)
    ensures r.currentFilename == GenerateFilename(host, s.config, io.now)
    ensures io.createOk ==> r.currentFilename in r.dir
    ensures Opens(io) && io.headerWriteOk ==>
      && r.currentFileSize == |HeaderBytes(host, s.config, io.headerNow)|
      && r.dir[r.currentFilename] == FileRecord(Some(io.now), HeaderBytes(host, s.config, io.headerNow))
    ensures Opens(io) && !io.headerWriteOk ==>
      r.currentFileSize == 0 && r.dir[r.currentFilename] == FileRecord(Some(io.now), [])
    ensures !Opens(io) ==> r.currentFileSize == s.currentFileSize
    ensures forall n :: n != r.currentFilename ==> SameEntry(s.dir, r.dir, n)
    ensures r.config == s.config && r.logLevel == s.logLevel && r.metadata == s.metadata
    ensures Valid(s) ==> Valid(r)
  {
    var closed := CloseCurrentFile(s);
    var name := GenerateFilename(host, s.config, io.now);
    var dir := if io.createOk then CreateFile(closed.dir, name, io.now) else closed.dir;
    var named := closed.(currentFilename := name, dir := dir);
    if Opens(io) then
      var withHandle := named.(handle := Some(FileHandle(name)), heldDescriptors := named.heldDescriptors + 1,
                           currentFileSize := 0);
      WriteData(withHandle, HeaderBytes(host, s.config, io.headerNow), io.headerWriteOk)
    else
      named
  }

  /**
   What the rotation needs of its environment: when the listing succeeds,
   `maxFiles` is not negative (otherwise `dropFirst` traps) and `order` is the
   listing of the new directory's `log-` files sorted newest first.
   */
  predicate RotationAdmissible(s: Sink, host: Host, io: RotationIO) {
    io.listOk ==> s.config.maxFiles >= 0 && SortedLogListing(OpenNextFile(s, host, io).dir, io.order)
  }

  /** `rotateLogFileIfNeeded`: open the next file, then run the retention cleanup. */
  function RotateLogFile(s: Sink, host: Host, io: RotationIO): (r: Sink)
    requires RotationAdmissible(s, host, io)
    ensures r.(dir := OpenNextFile(s, host, io).dir) == OpenNextFile(s, host, io)
    ensures r.dir.Keys <= OpenNextFile(s, host, io).dir.Keys
    ensures forall n :: n in r.dir ==> r.dir[n] == OpenNextFile(s, host, io).dir[n]
    ensures forall n :: !IsLogName(n) ==> SameEntry(s.dir, r.dir, n)
    ensures Valid(s) ==> Valid(r) && r.heldDescriptors <= 1
  {
    var next := OpenNextFile(s, host, io);
    next.(dir := CleanupOldFiles(next.dir, s.config.maxFiles, io.listOk, io.order, io.deleteFailures))
  }

  /** The bytes `writeLogEntry` writes for `e`. */
  function LineBytes(s: Sink, host: Host, e: LogEntry, order: seq<string>): (bs: seq<Utf8.byte>)
    requires IsKeyOrder(e.metadata, order)
    ensures |bs| > 0
  {
    Utf8.Encode(LogLine(host, s.config.timeZone, e, order))
  }

  /** The rotation test: the strict `>` of `currentFileSize + data.count > maxFileSize`. */
  predicate RotationFires(s: Sink, host: Host, e: LogEntry, order: seq<string>)
    requires IsKeyOrder(e.metadata, order)
  {
    s.currentFileSize + |LineBytes(s, host, e, order)| > s.config.maxFileSize
  }

  /** What writing `e` needs of its environment. */
  predicate WriteAdmissible(s: Sink, host: Host, e: LogEntry, io: EntryIO) {
    && IsKeyOrder(e.metadata, io.metadataOrder)
    && (RotationFires(s, host, e, io.metadataOrder) ==> RotationAdmissible(s, host, io.rotation))
  }

  /**
   `writeLogEntry`: format, rotate first when the line would overflow the
   current file, then write the line with no second check.
   */
  function WriteLogEntry(s: Sink, host: Host, e: LogEntry, io: EntryIO): (r: Sink)
    requires WriteAdmissible(s, host, e, io)
    ensures forall n :: !IsLogName(n) ==> Valid(s) ==> SameEntry(s.dir, r.dir, n)
    ensures Valid(s) ==> Valid(r) && r.heldDescriptors <= 1
    ensures r.config == s.config && r.logLevel == s.logLevel && r.metadata == s.metadata
  {
    var data := LineBytes(s, host, e, io.metadataOrder);
    var ready := if RotationFires(s, host, e, io.metadataOrder) then RotateLogFile(s, host, io.rotation) else s;
    WriteData(ready, data, io.writeOk)
  }

  /** What processing `e` needs of its environment: only entries that pass the filter are written. */
  predicate ProcessAdmissible(s: Sink, host: Host, e: LogEntry, io: EntryIO) {
    ShouldWriteEntryToFile(e, host.lower) ==> WriteAdmissible(s, host, e, io)
  }

  /** `processLogEntry`: the `"writeToFile"` filter, then the write. */
  function ProcessLogEntry(s: Sink, host: Host, e: LogEntry, io: EntryIO): (r: Sink)
    requires ProcessAdmissible(s, host, e, io)
    ensures !ShouldWriteEntryToFile(e, host.lower) ==> r == s
    ensures forall n :: !IsLogName(n) ==> Valid(s) ==> SameEntry(s.dir, r.dir, n)
    ensures Valid(s) ==> Valid(r) && r.heldDescriptors <= 1
  {
    if ShouldWriteEntryToFile(e, host.lower) then WriteLogEntry(s, host, e, io) else s
  }

  /** The task `init` starts: ensure the directory (no change to its contents), then rotate. */
  function Start(s: Sink, host: Host, io: RotationIO): (r: Sink)
    requires RotationAdmissible(s, host, io)
    ensures r.currentFilename == GenerateFilename(host, s.config, io.now)
    ensures Valid(s) ==> Valid(r)
  {
    RotateLogFile(s, host, io)
  }
}
