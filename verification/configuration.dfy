/** The sink's settings: an immutable record in this model. */
module Configurations {
  import opened Wrappers
  import opened Foundation
  import opened Levels

  datatype Configuration = Configuration(
    directoryURL: string,
    maxFileSize: int,
    maxFiles: int,
    filenameFormat: string,
    timeZone: Option<TimeZone>,
    logLevel: Level)

  /**
   `kLoggingKitDefaultDirectory`: a `Logs` folder under the home directory.
   `appendingPathComponent` does not double a trailing slash of `home`; the
   model's `"/" + "/Logs"` is `"//Logs"`, the same path spelled differently.
   */
  function DefaultDirectory(home: string): string {
    home + "/Logs"
  }

  /**
   `Configuration.init`, with the source's default arguments. Every argument is
   stored as given: nothing is checked, so non-positive sizes and counts pass.
   */
  function MakeConfiguration(
    directoryURL: string,
    maxFileSize: int := 1 * 1024 * 1024,
    maxFiles: int := 10,
    filenameFormat: string := "yyyy-MM-dd-HH-mm-ss",
    timeZone: Option<TimeZone> := MakeTimeZone(8 * 3600),
    logLevel: Level := Info): (c: Configuration)
    ensures c.directoryURL == directoryURL && c.maxFileSize == maxFileSize && c.maxFiles == maxFiles
    ensures c.filenameFormat == filenameFormat && c.timeZone == timeZone && c.logLevel == logLevel
  {
    Configuration(directoryURL, maxFileSize, maxFiles, filenameFormat, timeZone, logLevel)
  }

  /** `Configuration()` with every default taken. */
  function DefaultConfiguration(home: string): (c: Configuration)
    ensures c.directoryURL == home + "/Logs"
    ensures c.maxFileSize == 1_048_576
    ensures c.maxFiles == 10
    ensures c.filenameFormat == "yyyy-MM-dd-HH-mm-ss"
    ensures c.timeZone == Some(28_800)
    ensures c.logLevel == Info
  {
    MakeConfiguration(DefaultDirectory(home))
  }
}
