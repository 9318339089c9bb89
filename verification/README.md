# LoggingKit file sink, modelled in Dafny

This project models the file sink of LoggingKit, a Swift logging back end for
swift-log. The sink is the `FileDestination` actor. It takes `LogEntry` values
that pass its level gate and its `"writeToFile"` switch and formats each one as
a line. It appends the line to the current `log-<timestamp>.log` file, and
first rotates to a fresh file with a header when the line would push the file
past `maxFileSize`. After every rotation it deletes all but the `maxFiles`
newest `log-` files. The model also covers the `Configuration` and `LogEntry`
records.

Actor isolation runs one isolated call at a time. So the model treats each
call as a pure function from the sink's state to its next state
(`FileDestination.Sink`: configuration, level, handler metadata, the optional
file handle, the descriptors the process holds, `currentFileSize`,
`currentFilename`, and the directory as a map from name to creation date and
bytes). What the environment decides comes in as input:
- `RotationIO` and `EntryIO` say whether each filesystem call succeeds;
- they also give the clock readings, the order `sorted` returned, and the
  iteration order of the metadata dictionary;
- `Foundation.Host` holds the functions the model does not define:
  `DateFormatter`, `lowercased()`, and the description of dictionary and array
  metadata values.

UTF-8 encoding is defined, because a Dafny `char` is a Unicode scalar value,
so byte counts are the ones `Data.count` reports.

Modules: `Wrappers`, `Utf8`, `Text`, `Foundation`, `Levels` (swift-log's
levels), `Configurations`, `LogEntries`, `Formatting`, `Filtering`,
`Directories`, `Cleanup`, `FileDestination` (the state machine) and
`FileDestinationProperties` (properties relating several operations).

The model follows the code as written; in particular:
- A line is written after a rotation with no second size check. A fresh file can
  therefore grow past `maxFileSize` by one long line, and the file that is current
  when the next rotation fires can be larger than `maxFileSize`.
- `currentFileSize` is not always the number of bytes in the current file.
  After a failed open the counter keeps its old value, and writes through the
  missing handle are still counted.
- The retention count is `maxFiles`, and it includes the file just opened. With
  `maxFiles == 0` that file is deleted right after it is created, and its handle
  stays open.
- Metadata is rendered in dictionary iteration order, which is taken as an input.
- The subscript setter and `setMetadataValue` (`FileDestination.swift:69-75`)
  behave the same: a value stores it, `nil` removes the key. `SetMetadata`
  models both.

## Model

| member | source | states |
|---|---|---|
| Utf8.EncodeScalar | Sources/LoggingKit/Destinations/FileDestination.swift:201 | a scalar value encodes to one to four bytes, to one byte exactly when it is ASCII, and that byte is the code point |
| Utf8.Encode | Sources/LoggingKit/Destinations/FileDestination.swift:201 | a string of n scalars encodes to between n and 4n bytes |
| Utf8.EncodeAppend | Sources/LoggingKit/Destinations/FileDestination.swift:199-201 | the bytes of a concatenation are the concatenation of the bytes |
| Utf8.EncodeAscii | Sources/LoggingKit/Destinations/FileDestination.swift:172-173 | an ASCII string encodes to one byte per character, each its code point |
| Text.Join | Sources/LoggingKit/Destinations/FileDestination.swift:226 | joining no parts gives "", one part gives that part, and the result starts with the first part |
| Text.JoinLength | Sources/LoggingKit/Destinations/FileDestination.swift:226 | the joined length is the parts' total length plus one separator between each neighbouring pair |
| Text.JoinContainsParts | Sources/LoggingKit/Destinations/FileDestination.swift:226 | part k sits after the k parts before it and their separators, and is followed by the separator unless it is last |
| Foundation.MakeTimeZone | Sources/LoggingKit/Core/Configuration.swift:48 | a fixed-offset zone exists exactly for offsets within eighteen hours and keeps the offset |
| Levels.Rank | Sources/LoggingKit/Destinations/FileDestination.swift:88 | every level has one of seven ranks, below 7 |
| Levels.LevelsInDeclarationOrder | Sources/LoggingKit/Destinations/FileDestination.swift:88 | trace < debug < info < notice < warning < error < critical, the order the gate compares by |
| Levels.LevelsAreOrderedAndNamed | Sources/LoggingKit/Destinations/FileDestination.swift:88 | the level comparison is a total order, and distinct levels print distinct names |
| Configurations.MakeConfiguration | Sources/LoggingKit/Core/Configuration.swift:43-59 | every argument is stored unchanged in its field, with no validation |
| Configurations.DefaultConfiguration | Sources/LoggingKit/Core/Configuration.swift:43-49 | defaults: the home `Logs` folder, 1,048,576 bytes, 10 files, "yyyy-MM-dd-HH-mm-ss", a +28,800-second zone, level info |
| Formatting.Pairs | Sources/LoggingKit/Destinations/FileDestination.swift:226 | one `key=value` text per key, in iteration order |
| Formatting.FormatMetadata | Sources/LoggingKit/Destinations/FileDestination.swift:224-227 | the rendering is "" exactly when the metadata is empty |
| Formatting.MetadataPairsInOrder | Sources/LoggingKit/Destinations/FileDestination.swift:226 | pair k follows the k earlier pairs, each followed by a single space, and is itself followed by one unless it is last |
| Formatting.MetadataRenderingHasEveryPair | Sources/LoggingKit/Destinations/FileDestination.swift:224-227 | every key's `key=value` text appears in the rendering |
| Formatting.FormatLogEntry | Sources/LoggingKit/Destinations/FileDestination.swift:217-221 | a line starts with `<date> [<level>] <message> `, ends with a space followed by the rendered metadata, and has nothing between them: its length is the head's, the message's, one space and the metadata's |
| Formatting.EmptyMetadataKeepsTrailingSpace | Sources/LoggingKit/Destinations/FileDestination.swift:220-225 | with empty metadata the line is `<date> [<level>] <message> `, with the space kept |
| Formatting.LogLine | Sources/LoggingKit/Destinations/FileDestination.swift:199 | the written line is the formatted entry followed by one newline |
| Formatting.HeaderOpenLength | Sources/LoggingKit/Destinations/FileDestination.swift:172 | the header's opening text is 22 bytes |
| Formatting.HeaderCloseLength | Sources/LoggingKit/Destinations/FileDestination.swift:172 | the header's closing text is 5 bytes |
| Formatting.HeaderLine | Sources/LoggingKit/Destinations/FileDestination.swift:171-172 | the header is the start marker, the formatted date right after it, and the closing ` ===` and newline; it has no other characters and is 27 bytes longer than the encoded date |
| Filtering.ShouldWriteEntryToFile | Sources/LoggingKit/Destinations/FileDestination.swift:117-130 | case by case: no `writeToFile` key writes; a string or string-convertible value writes exactly when it lowers to "true"; a dictionary or array value writes |
| Filtering.AsciiLowerIsTrue | Sources/LoggingKit/Destinations/FileDestination.swift:122 | ASCII lowering gives "true" exactly for the four-letter spellings of "true" in any mix of cases |
| Filtering.AsciiSwitch | Sources/LoggingKit/Destinations/FileDestination.swift:119-127 | with ASCII lowering, a textual switch writes if and only if it spells "true" in some mix of cases |
| Filtering.AsciiSwitchExamples | Sources/LoggingKit/Destinations/FileDestination.swift:119-127 | "true", "TRUE" and "True" write; "false", "yes", "1" and "" drop |
| Directories.LogNames | Sources/LoggingKit/Destinations/FileDestination.swift:237 | the names cleanup considers are exactly the directory's names that start with `log-` |
| Directories.CreationKey | Sources/LoggingKit/Destinations/FileDestination.swift:239-240 | the sort key is the creation date, or `distantPast` (below every date) when there is none |
| Directories.CreateFile | Sources/LoggingKit/Destinations/FileDestination.swift:164 | creating adds one empty file dated now, replaces a same-named one, and leaves the others alone |
| Directories.AppendBytes | Sources/LoggingKit/Destinations/FileDestination.swift:192 | a write adds its bytes at the end of the named file if it is still present and changes nothing else |
| Cleanup.ListingCardinality | Sources/LoggingKit/Destinations/FileDestination.swift:237-245 | the filtered listing is exactly as long as the number of `log-` files |
| Cleanup.FilesToDelete | Sources/LoggingKit/Destinations/FileDestination.swift:245-246 | the files to delete are a suffix of the listing that leaves the first min(count, maxFiles) |
| Cleanup.Deleted | Sources/LoggingKit/Destinations/FileDestination.swift:246-251 | the deletions that happen are the longest prefix of the scheduled ones that contains no failing deletion |
| Cleanup.CleanupOldFiles | Sources/LoggingKit/Destinations/FileDestination.swift:230-253 | cleanup only removes entries; it never removes a non-`log-` name; a failed listing or a count within `maxFiles` changes nothing |
| Cleanup.DeletionsAreListed | Sources/LoggingKit/Destinations/FileDestination.swift:237-247 | every deleted name is a listed `log-` file, and within the limit nothing is deleted |
| Cleanup.DeletedWithoutFailures | Sources/LoggingKit/Destinations/FileDestination.swift:246-248 | when no deletion throws, every scheduled deletion happens |
| Cleanup.KeptPrefix | Sources/LoggingKit/Destinations/FileDestination.swift:245-248 | when no deletion throws, the `log-` files left are exactly the first min(count, maxFiles) of the sorted listing |
| Cleanup.RetentionBound | Sources/LoggingKit/Destinations/FileDestination.swift:237-249 | when no deletion throws, min(count, maxFiles) `log-` files remain, namely the newest in the listing |
| Cleanup.DeletedNoNewerThanKept | Sources/LoggingKit/Destinations/FileDestination.swift:238-248 | each deleted file is a `log-` file no newer than any of the first `maxFiles` in the sorted listing, even when a deletion throws |
| Cleanup.FailedDeletionKeepsTheRest | Sources/LoggingKit/Destinations/FileDestination.swift:246-251 | a deletion that throws leaves that file and every later scheduled file in place |
| Cleanup.MissingDateSortsOldest | Sources/LoggingKit/Destinations/FileDestination.swift:239-241 | in every sorted listing, a file without a creation date comes after every file with one |
| Cleanup.DeletedFileIsOld | Sources/LoggingKit/Destinations/FileDestination.swift:238-248 | a deleted file has at least `maxFiles` other `log-` files at least as new |
| Cleanup.KeptFileIsNew | Sources/LoggingKit/Destinations/FileDestination.swift:238-248 | when no deletion throws, a kept `log-` file has fewer than `maxFiles` strictly newer ones |
| Cleanup.KeptAreTheNewest | Sources/LoggingKit/Destinations/FileDestination.swift:238-248 | the two facts above for all files, for every listing sorted newest first, whatever the tie order |
| FileDestination.Init | Sources/LoggingKit/Destinations/FileDestination.swift:40-42 | a new sink holds no handle and no file, has size 0, and takes its level from the configuration |
| FileDestination.GetMetadata | Sources/LoggingKit/Destinations/FileDestination.swift:31-34 | the getter returns the stored value, or nil when the key is absent |
| FileDestination.SetMetadata | Sources/LoggingKit/Destinations/FileDestination.swift:31-38 | a read after a set returns what was set (nil removes the key); other keys and all other state are unchanged |
| FileDestination.SetLogLevel | Sources/LoggingKit/Destinations/FileDestination.swift:28 | setting the level changes the level and nothing else |
| FileDestination.Log | Sources/LoggingKit/Destinations/FileDestination.swift:78-106 | nothing is scheduled if and only if the level is below the handler's; a scheduled entry carries the arguments, stamped now, with nil metadata as empty |
| FileDestination.CloseCurrentFile | Sources/LoggingKit/Destinations/FileDestination.swift:61-64 | after closing, no handle and no descriptor are held; nothing else changes |
| FileDestination.GenerateFilename | Sources/LoggingKit/Destinations/FileDestination.swift:147-153 | every generated name starts with `log-`, ends with `.log`, and holds the formatted timestamp in between |
| FileDestination.WriteData | Sources/LoggingKit/Destinations/FileDestination.swift:191-195 | the counter grows by the byte count unless a real handle's write throws; bytes reach only the handle's file; with no handle they are counted but not written |
| FileDestination.OpenNextFile | Sources/LoggingKit/Destinations/FileDestination.swift:156-179 | rotation closes, then opens the new `log-` file; on success the size is the header's length and the file holds only the header; on failure no handle is held and the size keeps its old value |
| FileDestination.RotateLogFile | Sources/LoggingKit/Destinations/FileDestination.swift:156-183 | rotation then runs cleanup, which only removes files; non-`log-` files are untouched; at most one descriptor is held |
| FileDestination.LineBytes | Sources/LoggingKit/Destinations/FileDestination.swift:199-201 | every line's data is non-empty |
| FileDestination.WriteLogEntry | Sources/LoggingKit/Destinations/FileDestination.swift:198-214 | writing an entry keeps the invariant (one handle at most, on the current `log-` file) and never touches a non-`log-` file |
| FileDestination.ProcessLogEntry | Sources/LoggingKit/Destinations/FileDestination.swift:109-114 | a filtered-out entry leaves the whole state unchanged; otherwise the invariant and non-`log-` files are preserved |
| FileDestination.Start | Sources/LoggingKit/Destinations/FileDestination.swift:44-47 | the setup task leaves the sink on a freshly generated file name, with the invariant kept |
| FileDestinationProperties.HandlerMetadataNotConsulted | Sources/LoggingKit/Destinations/FileDestination.swift:91-100 | the entry `log` builds does not depend on the handler's own metadata |
| FileDestinationProperties.WarningGate | Sources/LoggingKit/Destinations/FileDestination.swift:88 | at level warning, an info entry is dropped and warning and error entries are scheduled |
| FileDestinationProperties.WithinLimitWritesToCurrentFile | Sources/LoggingKit/Destinations/FileDestination.swift:204-210 | a line that fits goes to the current file at its end, with no rotation, and the size stays within `maxFileSize` |
| FileDestinationProperties.ExactFitDoesNotRotate | Sources/LoggingKit/Destinations/FileDestination.swift:204 | a line that fills the file exactly does not rotate, and the size becomes exactly `maxFileSize` |
| FileDestinationProperties.OverflowGoesToNextFile | Sources/LoggingKit/Destinations/FileDestination.swift:204-210 | an overflowing line goes to the new file after its header, with size header plus line and no second check; the old file is unchanged |
| FileDestinationProperties.FailedOpenStillCounts | Sources/LoggingKit/Destinations/FileDestination.swift:166-210 | if the rotation's open fails, no handle is held and no line is written, but the old size still grows by the line |
| FileDestinationProperties.NewFileCountsTowardRetention | Sources/LoggingKit/Destinations/FileDestination.swift:160-182 | the newly created file is in cleanup's listing |
| FileDestinationProperties.ZeroRetentionDeletesNewFile | Sources/LoggingKit/Destinations/FileDestination.swift:156-183 | with `maxFiles == 0` the new file is deleted by its own cleanup while its handle stays open |
| FileDestinationProperties.RetentionAfterRotation | Sources/LoggingKit/Destinations/FileDestination.swift:181-249 | after a rotation whose cleanup does not fail, at most `maxFiles` `log-` files remain, and they are the newest |
| FileDestinationProperties.NonPositiveLimitAlwaysRotates | Sources/LoggingKit/Destinations/FileDestination.swift:204 | with `maxFileSize <= 0`, which the configuration accepts, every line triggers a rotation |
| FileDestinationProperties.OriginIsIgnored | Sources/LoggingKit/Core/LogEntry.swift:16-19 | entries differing only in source, file, function or line are filtered, formatted and processed the same |
| FileDestinationProperties.Run | Sources/LoggingKit/Destinations/FileDestination.swift:109-114 | over any run of entries, at most one handle is held and non-`log-` files are never touched |

## Left out

- Concurrency: actor scheduling, the unordered `Task`s that `log` starts, the unsynchronised reads of `logLevel` and `metadata`, the setup task racing the first entries, and the asynchronous close in `deinit`. Calls are treated as serialised.
- `setupLogDirectory`: the directory's creation and its failure are not modelled. The model has a single directory, and the directory-creation step changes nothing in it; the rotation that `Start` then runs creates a file and runs cleanup as usual.
- `createFile` failing while a same-named file already exists: the source could then open the old file and write from offset 0. The model treats a failed create as a failed open.
- A partial write before `write(contentsOf:)` throws; `synchronizeFile`; any failure of `closeFile`.
- Where the two `Date()` calls of a rotation differ: `now` names the file and dates its creation; `headerNow` goes into the header. The filesystem's own creation date is taken to be `now`.
- Cleanup.CleanupOldFiles: a negative `maxFiles` is excluded by its requires (and by `RotationAdmissible` for `RotateLogFile` and `Start`) when the listing succeeds, because `dropFirst` traps on a negative count and the process stops; the trap itself is not modelled.
- Time zones are fixed offsets from GMT (`Foundation.TimeZone` is a number of seconds). `Configuration` accepts any `TimeZone?`, including named zones with daylight-saving rules; those are reached only through the date formatter, which is a parameter.
- `DateFormatter`, `TimeZone.current`, `lowercased()` and the description of dictionary and array values are parameters (`Host`), not definitions.
- `hasPrefix` is compared scalar by scalar, not by Swift's grapheme and canonical-equivalence rules.
- Swift `Int` overflow of `currentFileSize` is not modelled (it would need about 2^63 bytes).
- Swift `sorted`'s tie order and `Dictionary` iteration order are inputs.
- `Configuration` is a class with `var` fields. Changes to it after the sink is built are not modelled. Its `queue` field is used by no modelled logic and is left out.
- `Package.swift`, `Sources/LoggingKit/Core/Shared.swift` (forwarding functions) and `Sources/LoggingKit/Core/LoggingKit.swift` (bootstrap wiring) are not part of this model. That wiring builds `FileDestination()` with the default configuration, so the model does not assume a passed configuration reaches the sink.
- `print` diagnostics.
