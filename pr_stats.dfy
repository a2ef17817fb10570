/**
 * The top level of the script: build a record per CSV row, keep the recent
 * ones, split their merge latencies into three buckets and print a report
 * for each.
 */
module PrStats {
  import opened Wrappers
  import opened Errors
  import opened Text
  import opened GitHubPullRequestInfo
  import opened Sampling
  import opened Console
  import opened Reporting

  const AllMergesDescription := "All Merges (Last 4 months)"
  const NotSameDayDescription := "PRs taking >0 days (Last 4 months)"
  const ThreeDaysPlusDescription := "PRs taking >2 days (Last 4 months)"

  /** The `minimum_ttm` of each bucket. */
  const AllMergesMinimum := 0
  const NotSameDayMinimum := 1
  const ThreeDaysPlusMinimum := 3

  /** `GitHubPullRequestInfo.new(r)` for each row, each evaluated on its own. */
  function Constructions(rows: seq<Param>, strptime: Strptime): (rs: seq<Result<PullRequest, Error>>)
    ensures |rs| == |rows|
  {
    if rows == [] then [] else [New(rows[0], strptime)] + Constructions(rows[1..], strptime)
  }

  lemma {:induction false} ConstructionsAt(rows: seq<Param>, strptime: Strptime)
    ensures forall i :: 0 <= i < |rows| ==> Constructions(rows, strptime)[i] == New(rows[i], strptime)
  {
    if rows != [] {
      ConstructionsAt(rows[1..], strptime);
      assert forall i :: 1 <= i < |rows| ==> Constructions(rows, strptime)[i] == Constructions(rows[1..], strptime)[i - 1];
    }
  }

  /** `rows.map { |r| GitHubPullRequestInfo.new(r) }`: every record, or the first row's error. */
  function BuildRecords(rows: seq<Param>, strptime: Strptime): Result<seq<PullRequest>, Error> {
    AllOk(Constructions(rows, strptime))
  }

  /**
   * The records are built exactly when every row can be, one record per row
   * in order; otherwise the script raises the error of the first row that
   * cannot.
   */
  lemma BuildRecordsMeaning(rows: seq<Param>, strptime: Strptime)
    ensures var r := BuildRecords(rows, strptime);
            && (r.Ok? <==> forall i :: 0 <= i < |rows| ==> New(rows[i], strptime).Ok?)
            && (r.Ok? ==> |r.value| == |rows| && forall i :: 0 <= i < |rows| ==> New(rows[i], strptime) == Ok(r.value[i]))
            && (r.Err? ==> exists i :: 0 <= i < |rows| && New(rows[i], strptime) == Err(r.error)
                                       && forall j :: 0 <= j < i ==> New(rows[j], strptime).Ok?)
  {
    ConstructionsAt(rows, strptime);
    AllOkMeaning(Constructions(rows, strptime));
  }

  /** The three samples the script reports on. */
  datatype Buckets = Buckets(all: seq<int>, notSameDay: seq<int>, threeDaysPlus: seq<int>)

  /** `ttm_data(sample)`, `ttm_data(sample, 1)` and `ttm_data(sample, 3)`. */
  function SplitBuckets(sample: seq<PullRequest>): Buckets {
    Buckets(TtmData(sample, AllMergesMinimum), TtmData(sample, NotSameDayMinimum), TtmData(sample, ThreeDaysPlusMinimum))
  }

  /**
   * The buckets nest: the first holds the sample's non-negative latencies in
   * input order, each later one is the previous one cut at its own
   * threshold, so each is a subsequence of the previous and no larger, and
   * the last holds no latency under three days.
   */
  lemma BucketsNest(sample: seq<PullRequest>)
    ensures var b := SplitBuckets(sample);
            && b.all == AtLeast(Latencies(sample), AllMergesMinimum)
            && b.notSameDay == AtLeast(b.all, NotSameDayMinimum)
            && b.threeDaysPlus == AtLeast(b.notSameDay, ThreeDaysPlusMinimum)
            && IsSubsequence(b.notSameDay, b.all) && IsSubsequence(b.threeDaysPlus, b.notSameDay)
            && IsSubsequence(b.threeDaysPlus, b.all)
            && |b.threeDaysPlus| <= |b.notSameDay| <= |b.all|
            && forall i :: 0 <= i < |b.threeDaysPlus| ==> b.threeDaysPlus[i] >= 3
  {
    TtmDataInOrder(sample, AllMergesMinimum);
    TtmDataRaise(sample, AllMergesMinimum, NotSameDayMinimum);
    TtmDataRaise(sample, NotSameDayMinimum, ThreeDaysPlusMinimum);
    TtmDataMonotone(sample, AllMergesMinimum, NotSameDayMinimum);
    TtmDataMonotone(sample, NotSameDayMinimum, ThreeDaysPlusMinimum);
    var b := SplitBuckets(sample);
    SubsequenceTransitive(b.threeDaysPlus, b.notSameDay, b.all);
  }

  /** The output of the script: nothing when a record cannot be built or compared, else a blank line and three reports. */
  function ScriptOutput(rows: seq<Param>, cutoff: Timestamp, strptime: Strptime, statsOf: seq<int> -> Stats): Output {
    match BuildRecords(rows, strptime)
    case Err(e) => Output([], Some(e))
    case Ok(records) =>
      match SelectRecent(records, cutoff)
      case Err(e) => Output([], Some(e))
      case Ok(sample) =>
        var b := SplitBuckets(sample);
        Then(Output([""], None),
          Then(Execute(ReportPlan(statsOf(b.all), AllMergesDescription, |b.all|)),
            Then(Execute(ReportPlan(statsOf(b.notSameDay), NotSameDayDescription, |b.notSameDay|)),
              Execute(ReportPlan(statsOf(b.threeDaysPlus), ThreeDaysPlusDescription, |b.threeDaysPlus|)))))
  }

  /** The script, statement by statement: it stops at the first exception. */
  method Run(rows: seq<Param>, cutoff: Timestamp, strptime: Strptime, statsOf: seq<int> -> Stats) returns (out: Output)
    ensures out == ScriptOutput(rows, cutoff, strptime, statsOf)
  {
    var records := BuildRecords(rows, strptime);
    if records.Err? {
      return Output([], Some(records.error));
    }
    var sample := SelectRecent(records.value, cutoff);
    if sample.Err? {
      return Output([], Some(sample.error));
    }
    var b := SplitBuckets(sample.value);
    ghost var second := Execute(ReportPlan(statsOf(b.notSameDay), NotSameDayDescription, |b.notSameDay|));
    ghost var third := Execute(ReportPlan(statsOf(b.threeDaysPlus), ThreeDaysPlusDescription, |b.threeDaysPlus|));
    out := Output([""], None);
    var report := Report(statsOf(b.all), AllMergesDescription, |b.all|);
    ThenAssociates(out, report, Then(second, third));
    out := Then(out, report);
    if out.raised.Some? {
      return;
    }
    report := Report(statsOf(b.notSameDay), NotSameDayDescription, |b.notSameDay|);
    ThenAssociates(out, report, third);
    out := Then(out, report);
    if out.raised.Some? {
      return;
    }
    report := Report(statsOf(b.threeDaysPlus), ThreeDaysPlusDescription, |b.threeDaysPlus|);
    out := Then(out, report);
  }

  /** A row that cannot be built, or a recent-filter comparison that raises, stops the script before it prints anything. */
  lemma ScriptSilentOnBadInput(rows: seq<Param>, cutoff: Timestamp, strptime: Strptime, statsOf: seq<int> -> Stats)
    requires BuildRecords(rows, strptime).Err?
             || exists i :: 0 <= i < |BuildRecords(rows, strptime).value| && BuildRecords(rows, strptime).value[i].created.EmptyText?
    ensures var out := ScriptOutput(rows, cutoff, strptime, statsOf);
            && out.lines == [] && out.raised.Some?
            && (BuildRecords(rows, strptime).Ok? ==> out.raised == Some(ComparisonFailed))
  {
  }

  /**
   * When every bucket's statistics are available, the script prints a blank
   * line and then three complete 21-line reports, for 0, 1 and 3 days.
   */
  lemma ScriptLayout(rows: seq<Param>, cutoff: Timestamp, strptime: Strptime, statsOf: seq<int> -> Stats)
    requires BuildRecords(rows, strptime).Ok?
    requires SelectRecent(BuildRecords(rows, strptime).value, cutoff).Ok?
    requires var b := SplitBuckets(SelectRecent(BuildRecords(rows, strptime).value, cutoff).value);
             SummaryAvailable(statsOf(b.all)) && SummaryAvailable(statsOf(b.notSameDay)) && SummaryAvailable(statsOf(b.threeDaysPlus))
    ensures var b := SplitBuckets(SelectRecent(BuildRecords(rows, strptime).value, cutoff).value);
            var out := ScriptOutput(rows, cutoff, strptime, statsOf);
            && out.raised == None
            && out.lines == [""] + CompleteReport(statsOf(b.all), AllMergesDescription, |b.all|)
                 + CompleteReport(statsOf(b.notSameDay), NotSameDayDescription, |b.notSameDay|)
                 + CompleteReport(statsOf(b.threeDaysPlus), ThreeDaysPlusDescription, |b.threeDaysPlus|)
            && |out.lines| == 64
            && out.lines[3] == AllMergesDescription && out.lines[4] == "n = " + IntToString(|b.all|)
            && out.lines[24] == NotSameDayDescription && out.lines[25] == "n = " + IntToString(|b.notSameDay|)
            && out.lines[45] == ThreeDaysPlusDescription && out.lines[46] == "n = " + IntToString(|b.threeDaysPlus|)
  {
    var b := SplitBuckets(SelectRecent(BuildRecords(rows, strptime).value, cutoff).value);
    var r1 := CompleteReport(statsOf(b.all), AllMergesDescription, |b.all|);
    var r2 := CompleteReport(statsOf(b.notSameDay), NotSameDayDescription, |b.notSameDay|);
    var r3 := CompleteReport(statsOf(b.threeDaysPlus), ThreeDaysPlusDescription, |b.threeDaysPlus|);
    ReportCompletes(statsOf(b.all), AllMergesDescription, |b.all|);
    ReportCompletes(statsOf(b.notSameDay), NotSameDayDescription, |b.notSameDay|);
    ReportCompletes(statsOf(b.threeDaysPlus), ThreeDaysPlusDescription, |b.threeDaysPlus|);
    ThreeBlocks([""], r1, r2, r3);
  }

  /** Where each of three 21-line reports sits after the opening blank line. */
  lemma ThreeBlocks<T>(z: seq<T>, r1: seq<T>, r2: seq<T>, r3: seq<T>)
    requires |z| == 1 && |r1| == 21 && |r2| == 21 && |r3| == 21
    ensures z + (r1 + (r2 + r3)) == z + r1 + r2 + r3
    ensures var all := z + r1 + r2 + r3;
            && |all| == 64
            && all[3] == r1[2] && all[4] == r1[3]
            && all[24] == r2[2] && all[25] == r2[3]
            && all[45] == r3[2] && all[46] == r3[3]
  {
  }

  /**
   * When a statistic of the first bucket is missing, the script prints the
   * blank line and the first report's header, and ends with that error.
   */
  lemma ScriptStopsAtFirstReport(rows: seq<Param>, cutoff: Timestamp, strptime: Strptime, statsOf: seq<int> -> Stats)
    requires BuildRecords(rows, strptime).Ok?
    requires SelectRecent(BuildRecords(rows, strptime).value, cutoff).Ok?
    requires !SummaryAvailable(statsOf(SplitBuckets(SelectRecent(BuildRecords(rows, strptime).value, cutoff).value).all))
    ensures var b := SplitBuckets(SelectRecent(BuildRecords(rows, strptime).value, cutoff).value);
            var out := ScriptOutput(rows, cutoff, strptime, statsOf);
            && out.raised == Some(StatisticFailed)
            && 6 <= |out.lines| < 22
            && out.lines[..6] == [""] + HeaderLines(AllMergesDescription, |b.all|)
  {
    var b := SplitBuckets(SelectRecent(BuildRecords(rows, strptime).value, cutoff).value);
    var first := Execute(ReportPlan(statsOf(b.all), AllMergesDescription, |b.all|));
    var rest := Then(Execute(ReportPlan(statsOf(b.notSameDay), NotSameDayDescription, |b.notSameDay|)),
                     Execute(ReportPlan(statsOf(b.threeDaysPlus), ThreeDaysPlusDescription, |b.threeDaysPlus|)));
    ReportRaises(statsOf(b.all), AllMergesDescription, |b.all|);
    OpeningThenFailure(first, rest);
  }

  /** A blank line, then a block that raises: what follows the block never runs. */
  lemma OpeningThenFailure(first: Output, rest: Output)
    requires first.raised.Some? && 5 <= |first.lines|
    ensures var out := Then(Output([""], None), Then(first, rest));
            && out.raised == first.raised
            && out.lines == [""] + first.lines
            && out.lines[..6] == [""] + first.lines[..5]
  {
    assert ([""] + first.lines)[..6] == [""] + first.lines[..5];
  }
}
