/**
 The log directory, as a map from file name to the file's creation date (when
 the filesystem reports one) and its bytes.
 */
module Directories {
  import opened Wrappers
  import opened Foundation
  import opened Text
  import opened Utf8

  datatype FileRecord = FileRecord(creationDate: Option<Date>, bytes: seq<byte>)

  type Directory = map<string, FileRecord>

  const LogPrefix: string := "log-"

  /** The names cleanup considers: those starting with `log-`. */
  predicate IsLogName(name: string) {
    HasPrefix(name, LogPrefix)
  }

  function LogNames(dir: Directory): (r: set<string>)
    ensures forall n :: n in r <==> n in dir && IsLogName(n)
  {
    set n | n in dir && IsLogName(n)
  }

  /** The date cleanup sorts by: the creation date, or `distantPast` without one. */
  function CreationKey(f: FileRecord): (k: int)
    ensures f.creationDate.None? ==> k == DistantPast
    ensures f.creationDate.Some? ==> k == f.creationDate.value > DistantPast
  {
    match f.creationDate
    case Some(d) => d
    case None => DistantPast
  }

  /** `createFile(atPath:contents: nil)`: an empty file dated `now`, replacing one of the same name. */
  function CreateFile(dir: Directory, name: string, now: Date): (r: Directory)
    ensures r.Keys == dir.Keys + {name}
    ensures r[name] == FileRecord(Some(now), [])
    ensures forall n :: n in dir && n != name ==> r[n] == dir[n]
  {
    dir[name := FileRecord(Some(now), [])]
  }

  /** Bytes written through a handle land at the end of the file, if it is still there. */
  function AppendBytes(dir: Directory, name: string, data: seq<byte>): (r: Directory)
    ensures r.Keys == dir.Keys
    ensures name in dir ==> r[name] == dir[name].(bytes := dir[name].bytes + data)
    ensures forall n :: n in dir && n != name ==> r[n] == dir[n]
  {
    if name in dir then dir[name := dir[name].(bytes := dir[name].bytes + data)] else dir
  }

  /** Name `n` is present in both or neither, with the same record. */
  predicate SameEntry(a: Directory, b: Directory, n: string) {
    (n in a <==> n in b) && (n in a ==> a[n] == b[n])
  }
}
