/**
 * GitHubPullRequestInfo: one pull request read from a CSV row, with its
 * three date columns parsed and its merge latency in whole days derived.
 */
module GitHubPullRequestInfo {
  import opened Wrappers
  import opened Errors

  /** A point in time, in seconds. */
  type Timestamp = int

  const SecondsPerDay: nat := 86400
  const DateTimeFormat: string := "%m/%d/%y %H:%M:%S %Z"
  /** Appended to every date field before it is parsed: the export is in US Pacific time. */
  const ZoneSuffix: string := " Pacific Time"

  /**
   * A row: column name to field value. CSV reads an unquoted empty cell as
   * `nil` and a quoted `""` cell as the empty String.
   */
  type Row = map<string, Option<string>>

  /** What `initialize` may be handed; only the first two are accepted. */
  datatype Param = CsvRow(fields: Row) | HashRow(fields: Row) | OtherValue

  /** `row[column]`: `nil` when the column is missing. */
  function Lookup(row: Row, column: string): Option<string> {
    if column in row then row[column] else None
  }

  /** `DateTime.strptime(text, format)`: a timestamp, or None when it raises. */
  type Strptime = (string, string) -> Option<Timestamp>

  /** The Ruby value left in a date attribute: `nil`, the empty String, or a DateTime. */
  datatype DateField = Nil | EmptyText | At(time: Timestamp)

  /**
   * `parse_datetime`: `nil` and `""` come back unchanged; any other value is
   * parsed with the zone suffix appended, and a value that does not parse raises.
   */
  function ParseDatetime(value: Option<string>, strptime: Strptime): (r: Result<DateField, Error>)
    ensures value.None? <==> r == Ok(Nil)
    ensures value == Some("") <==> r == Ok(EmptyText)
    ensures r.Ok? && r.value.At? <==>
              value.Some? && value.value != "" && strptime(value.value + ZoneSuffix, DateTimeFormat).Some?
    ensures r.Ok? && r.value.At? ==> strptime(value.value + ZoneSuffix, DateTimeFormat) == Some(r.value.time)
    ensures r.Err? ==> r.error == InvalidDate(value.value + ZoneSuffix)
  {
    if value.None? then Ok(Nil)
    else if value.value == "" then Ok(EmptyText)
    else
      match strptime(value.value + ZoneSuffix, DateTimeFormat)
      case Some(t) => Ok(At(t))
      case None => Err(InvalidDate(value.value + ZoneSuffix))
  }

  /** `(merged - created).to_f.floor`: whole days from `created` to `merged`, rounded down. */
  function DaysBetween(created: Timestamp, merged: Timestamp): (days: int)
    ensures days * SecondsPerDay <= merged - created < (days + 1) * SecondsPerDay
    ensures created <= merged <==> days >= 0
  {
    (merged - created) / SecondsPerDay
  }

  /**
   * `@merged ? (@merged - @created).to_f.floor : nil`. A Merged value that is the
   * empty String is truthy and has no `-`; a DateTime minus `nil` or `""` raises too.
   */
  function TimeToMerge(created: DateField, merged: DateField): (r: Result<Option<int>, Error>)
    ensures r == Ok(None) <==> merged.Nil?
    ensures r.Ok? && r.value.Some? <==> merged.At? && created.At?
    ensures r.Ok? && r.value.Some? ==> r.value.value == DaysBetween(created.time, merged.time)
    ensures merged.EmptyText? ==> r == Err(UndefinedMinus)
    ensures merged.At? && !created.At? ==> r == Err(NotADate)
  {
    match merged
    case Nil => Ok(None)
    case EmptyText => Err(UndefinedMinus)
    case At(m) =>
      match created
      case At(c) => Ok(Some(DaysBetween(c, m)))
      case _ => Err(NotADate)
  }

  datatype PullRequest = PullRequest(
    repo: Option<string>,
    number: Option<string>,
    user: Option<string>,
    title: Option<string>,
    state: Option<string>,
    created: DateField,
    updated: DateField,
    merged: DateField,
    url: Option<string>,
    timeToMerge: Option<int>)

  /** The record invariant: the latency is there exactly when the merge date is, and is derived from it. */
  predicate WellFormed(pr: PullRequest) {
    && (pr.timeToMerge.None? <==> pr.merged.Nil?)
    && !pr.merged.EmptyText?
    && (pr.merged.At? ==> pr.created.At? && pr.timeToMerge == Some(DaysBetween(pr.created.time, pr.merged.time)))
  }

  /** The text attributes hold the row's values unchanged. */
  predicate CopiesText(row: Row, pr: PullRequest) {
    && pr.repo == Lookup(row, "Repository")
    && pr.number == Lookup(row, "#")
    && pr.user == Lookup(row, "User")
    && pr.title == Lookup(row, "Title")
    && pr.state == Lookup(row, "State")
    && pr.url == Lookup(row, "URL")
  }

  /** The date attributes hold what `parse_datetime` made of the row's date columns. */
  predicate ParsesDates(row: Row, strptime: Strptime, pr: PullRequest) {
    && ParseDatetime(Lookup(row, "Created"), strptime) == Ok(pr.created)
    && ParseDatetime(Lookup(row, "Updated"), strptime) == Ok(pr.updated)
    && ParseDatetime(Lookup(row, "Merged"), strptime) == Ok(pr.merged)
  }

  /** A row `initialize` turns into a record without raising. */
  predicate Constructible(row: Row, strptime: Strptime) {
    var created := ParseDatetime(Lookup(row, "Created"), strptime);
    var merged := ParseDatetime(Lookup(row, "Merged"), strptime);
    && created.Ok?
    && ParseDatetime(Lookup(row, "Updated"), strptime).Ok?
    && merged.Ok?
    && !merged.value.EmptyText?
    && (merged.value.At? ==> created.value.At?)
  }

  /** `GitHubPullRequestInfo.new(csv_row)`. */
  function New(param: Param, strptime: Strptime): (r: Result<PullRequest, Error>)
    ensures param.OtherValue? <==> r == Err(InvalidParameter)
    ensures r.Ok? <==> !param.OtherValue? && Constructible(param.fields, strptime)
    ensures r.Ok? ==> CopiesText(param.fields, r.value) && ParsesDates(param.fields, strptime, r.value)
    ensures r.Ok? ==> WellFormed(r.value)
    ensures !param.OtherValue? && Lookup(param.fields, "Merged") == Some("") ==> r.Err?
  {
    if param.OtherValue? then Err(InvalidParameter)
    else
      var row := param.fields;
      var created :- ParseDatetime(Lookup(row, "Created"), strptime);
      var updated :- ParseDatetime(Lookup(row, "Updated"), strptime);
      var merged :- ParseDatetime(Lookup(row, "Merged"), strptime);
      var timeToMerge :- TimeToMerge(created, merged);
      Ok(PullRequest(
        Lookup(row, "Repository"), Lookup(row, "#"), Lookup(row, "User"),
        Lookup(row, "Title"), Lookup(row, "State"),
        created, updated, merged, Lookup(row, "URL"), timeToMerge))
  }
}
