/** The `"writeToFile"` metadata switch that can keep an entry out of the file. */
module Filtering {
  import opened Foundation
  import opened LogEntries
  import opened Text

  const WriteToFileKey: string := "writeToFile"

  /**
   `shouldWriteEntryToFile`: with no `"writeToFile"` key the entry is written;
   a string or string-convertible value writes exactly when it lowers to
   `"true"`; a dictionary or array value always writes.
   */
  function ShouldWriteEntryToFile(e: LogEntry, lower: string -> string): (r: bool)
    ensures WriteToFileKey !in e.metadata ==> r
    ensures forall s :: WriteToFileKey in e.metadata && e.metadata[WriteToFileKey] == Str(s)
              ==> (r <==> lower(s) == "true")
    ensures forall d :: WriteToFileKey in e.metadata && e.metadata[WriteToFileKey] == StringConvertible(d)
              ==> (r <==> lower(d) == "true")
    ensures (WriteToFileKey in e.metadata
             && (e.metadata[WriteToFileKey].Dictionary? || e.metadata[WriteToFileKey].Array?)) ==> r
  {
    if WriteToFileKey in e.metadata then
      match e.metadata[WriteToFileKey]
      case Str(value) => lower(value) == "true"
      case StringConvertible(value) => lower(value) == "true"
      case _ => true
    else
      true
  }

  /** The spellings of "true" that ASCII lowering accepts: any mix of cases. */
  predicate SpellsTrue(s: string) {
    && |s| == 4
    && (s[0] == 't' || s[0] == 'T')
    && (s[1] == 'r' || s[1] == 'R')
    && (s[2] == 'u' || s[2] == 'U')
    && (s[3] == 'e' || s[3] == 'E')
  }

  lemma AsciiLowerIsTrue(s: string)
    ensures AsciiLower(s) == "true" <==> SpellsTrue(s)
  {
    if AsciiLower(s) == "true" {
      assert AsciiLower(s)[0] == 't' && AsciiLower(s)[1] == 'r';
      assert AsciiLower(s)[2] == 'u' && AsciiLower(s)[3] == 'e';
    }
    if SpellsTrue(s) {
      assert AsciiLower(s) == "true";
    }
  }

  /**
   With ASCII lowering, a textual switch writes exactly when it spells "true"
   in some mix of cases.
   */
  lemma AsciiSwitch(e: LogEntry, s: string)
    requires WriteToFileKey in e.metadata
    requires e.metadata[WriteToFileKey] == Str(s) || e.metadata[WriteToFileKey] == StringConvertible(s)
    ensures ShouldWriteEntryToFile(e, AsciiLower) <==> SpellsTrue(s)
  {
    AsciiLowerIsTrue(s);
  }

  /** Some switches: "TRUE" and "True" write; "false", "yes", "1" and "" drop. */
  lemma AsciiSwitchExamples(e: LogEntry, s: string)
    requires WriteToFileKey in e.metadata
    requires e.metadata[WriteToFileKey] == Str(s) || e.metadata[WriteToFileKey] == StringConvertible(s)
    ensures s in {"true", "TRUE", "True"} ==> ShouldWriteEntryToFile(e, AsciiLower)
    ensures s in {"false", "yes", "1", ""} ==> !ShouldWriteEntryToFile(e, AsciiLower)
  {
    AsciiSwitch(e, s);
  }
}
