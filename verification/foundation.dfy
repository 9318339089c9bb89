/**
 The Foundation pieces the sink leans on, reduced to what the model needs.
 Functions the model cannot see (date formatting, Unicode lowering, the
 description of nested metadata) are gathered in `Host` and passed in.
 */
module Foundation {
  import opened Wrappers

  /** A point in time; the model counts in whole units from an epoch. */
  type Date = nat

  /** `Date.distantPast`, which sorts below every date the model can hold. */
  const DistantPast: int := -1

  /** A fixed offset from GMT in seconds, as built by `TimeZone(secondsFromGMT:)`. */
  type TimeZone = int

  /** `TimeZone(secondsFromGMT:)`, which refuses offsets beyond eighteen hours. */
  function MakeTimeZone(secondsFromGMT: int): (r: Option<TimeZone>)
    ensures r.Some? <==> -18 * 3600 <= secondsFromGMT <= 18 * 3600
    ensures r.Some? ==> r.value == secondsFromGMT
  {
    if -18 * 3600 <= secondsFromGMT <= 18 * 3600 then Some(secondsFromGMT) else None
  }

  /** A swift-log metadata value. */
  datatype MetadataValue =
    | Str(text: string)
    | StringConvertible(description: string)
    | Dictionary(entries: map<string, MetadataValue>)
    | Array(items: seq<MetadataValue>)

  type Metadata = map<string, MetadataValue>

  /**
   The host functions the model takes as given:
   - `formatDate(pattern, zone, date)`: a `DateFormatter` with that `dateFormat`,
     in `zone` (or the current zone when `None`);
   - `lower`: `String.lowercased()`;
   - `describeCollection`: the `description` of a dictionary or array value.
   */
  datatype Host = Host(
    formatDate: (string, Option<TimeZone>, Date) -> string,
    lower: string -> string,
    describeCollection: MetadataValue -> string)

  /** `"\(value)"` for a metadata value. */
  function Describe(host: Host, v: MetadataValue): string {
    match v
    case Str(s) => s
    case StringConvertible(d) => d
    case _ => host.describeCollection(v)
  }
}
