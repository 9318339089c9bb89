/** The text of a written line and of a file's header line. */
module Formatting {
  import opened Wrappers
  import opened Foundation
  import opened Levels
  import opened LogEntries
  import opened Text
  import Utf8

  /** The fixed pattern of the sink's own `dateFormatter`. */
  const LineDatePattern: string := "yyyy-MM-dd HH:mm:ss.SSS"

  /**
   `order` is one iteration order of the dictionary `m`: each key exactly once.
   Swift leaves that order unspecified, so the model takes it as an input.
   */
  predicate IsKeyOrder(m: Metadata, order: seq<string>) {
    && (forall i :: 0 <= i < |order| ==> order[i] in m)
    && (forall k :: k in m ==> k in order)
    && (forall i, j :: 0 <= i < j < |order| ==> order[i] != order[j])
  }

  /** `"\(key)=\(value)"`. */
  function Pair(host: Host, m: Metadata, k: string): string
    requires k in m
  {
    k + "=" + Describe(host, m[k])
  }

  function Pairs(host: Host, m: Metadata, order: seq<string>): (ps: seq<string>)
    requires forall i :: 0 <= i < |order| ==> order[i] in m
    ensures |ps| == |order|
    ensures forall i :: 0 <= i < |order| ==> ps[i] == Pair(host, m, order[i])
  {
    if order == [] then [] else [Pair(host, m, order[0])] + Pairs(host, m, order[1..])
  }

  /** `formatMetadata`: the pairs in iteration order, separated by single spaces. */
  function FormatMetadata(host: Host, m: Metadata, order: seq<string>): (r: string)
    requires IsKeyOrder(m, order)
    ensures r == "" <==> |m| == 0
  {
    if |m| == 0 then ""
    else
      assert order != [] by {
        var k :| k in m;
        assert k in order;
      }
      assert HasPrefix(Join(Pairs(host, m, order), " "), Pair(host, m, order[0]));
      Join(Pairs(host, m, order), " ")
  }

  /** The `<date> [<level>] ` head of a line. */
  function LineHead(host: Host, zone: Option<TimeZone>, e: LogEntry): string {
    host.formatDate(LineDatePattern, zone, e.timestamp) + " [" + Name(e.level) + "] "
  }

  /** `formatLogEntry`: date, bracketed level, message, a space, then the metadata. */
  function FormatLogEntry(host: Host, zone: Option<TimeZone>, e: LogEntry, order: seq<string>): (r: string)
    requires IsKeyOrder(e.metadata, order)
    ensures HasPrefix(r, LineHead(host, zone, e) + e.message + " ")
    ensures HasSuffix(r, " " + FormatMetadata(host, e.metadata, order))
    ensures |r| == |LineHead(host, zone, e)| + |e.message| + 1 + |FormatMetadata(host, e.metadata, order)|
  {
    var head := LineHead(host, zone, e) + e.message + " ";
    var meta := FormatMetadata(host, e.metadata, order);
    assert (head + meta)[..|head|] == head;
    assert (head + meta)[|head + meta| - |" " + meta|..] == " " + meta;
    head + meta
  }

  /** The line `writeLogEntry` encodes: the formatted entry and a newline. */
  function LogLine(host: Host, zone: Option<TimeZone>, e: LogEntry, order: seq<string>): (r: string)
    requires IsKeyOrder(e.metadata, order)
    ensures |r| > 0 && r[|r| - 1] == '\n'
    ensures r[..|r| - 1] == FormatLogEntry(host, zone, e, order)
  {
    FormatLogEntry(host, zone, e, order) + "\n"
  }

  /**
   Pair `k` of the iteration order sits after the `k` pairs before it and
   their separating spaces, and is followed by a single space unless it is last.
   */
  lemma MetadataPairsInOrder(host: Host, m: Metadata, order: seq<string>, k: nat)
    requires IsKeyOrder(m, order)
    requires 0 <= k < |order|
    ensures var r := FormatMetadata(host, m, order);
      var at := PartOffset(Pairs(host, m, order), " ", k);
      && OccursAt(Pair(host, m, order[k]), r, at)
      && (k < |order| - 1 ==> OccursAt(Pair(host, m, order[k]) + " ", r, at))
  {
    var ps := Pairs(host, m, order);
    RenderingIsJoin(host, m, order, k);
    JoinContainsParts(ps, " ", k);
    assert ps[k] == Pair(host, m, order[k]);
  }

  lemma RenderingIsJoin(host: Host, m: Metadata, order: seq<string>, k: int)
    requires IsKeyOrder(m, order)
    requires 0 <= k < |order|
    ensures FormatMetadata(host, m, order) == Join(Pairs(host, m, order), " ")
  {
    assert order[k] in m;
  }

  /** Every metadata pair appears in the rendering. */
  lemma MetadataRenderingHasEveryPair(host: Host, m: Metadata, order: seq<string>, key: string)
    requires IsKeyOrder(m, order)
    requires key in m
    ensures exists i :: OccursAt(Pair(host, m, key), FormatMetadata(host, m, order), i)
  {
    var k :| 0 <= k < |order| && order[k] == key;
    MetadataPairsInOrder(host, m, order, k);
  }

  /** With no metadata the line still ends in the space that precedes it. */
  lemma EmptyMetadataKeepsTrailingSpace(host: Host, zone: Option<TimeZone>, e: LogEntry, order: seq<string>)
    requires IsKeyOrder(e.metadata, order)
    requires |e.metadata| == 0
    ensures FormatLogEntry(host, zone, e, order) == LineHead(host, zone, e) + e.message + " "
  {
    var r := FormatLogEntry(host, zone, e, order);
    var head := LineHead(host, zone, e) + e.message + " ";
    assert |r| == |head|;
  }

  const HeaderOpen: string := "=== LoggingKit Start: "
  const HeaderClose: string := " ===\n"

  lemma HeaderOpenLength()
    ensures |Utf8.Encode(HeaderOpen)| == 22
  {
    assert Utf8.IsAscii(HeaderOpen);
    Utf8.EncodeAscii(HeaderOpen);
  }

  lemma HeaderCloseLength()
    ensures |Utf8.Encode(HeaderClose)| == 5
  {
    assert Utf8.IsAscii(HeaderClose);
    Utf8.EncodeAscii(HeaderClose);
  }

  /** The header that starts every file the sink opens. */
  function HeaderLine(host: Host, zone: Option<TimeZone>, t: Date): (r: string)
    ensures HasPrefix(r, HeaderOpen)
    ensures OccursAt(host.formatDate(LineDatePattern, zone, t), r, |HeaderOpen|)
    ensures HasSuffix(r, HeaderClose)
    ensures |r| == |HeaderOpen| + |host.formatDate(LineDatePattern, zone, t)| + |HeaderClose|
    ensures |Utf8.Encode(r)| == 27 + |Utf8.Encode(host.formatDate(LineDatePattern, zone, t))|
  {
    var date := host.formatDate(LineDatePattern, zone, t);
    assert (HeaderOpen + date + HeaderClose)[..|HeaderOpen|] == HeaderOpen;
    assert (HeaderOpen + date + HeaderClose)[|HeaderOpen|..|HeaderOpen| + |date|] == date;
    assert (HeaderOpen + date + HeaderClose)[|HeaderOpen| + |date|..] == HeaderClose;
    Utf8.EncodeAppend(HeaderOpen + date, HeaderClose);
    Utf8.EncodeAppend(HeaderOpen, date);
    HeaderOpenLength();
    HeaderCloseLength();
    HeaderOpen + date + HeaderClose
  }
}
