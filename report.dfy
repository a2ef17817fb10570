/**
 * `report(stats, description, sample_count)`: the fixed block of lines
 * printed for one sample, over the statistics object of that sample.
 */
module Reporting {
  import opened Wrappers
  import opened Errors
  import opened Text
  import opened Console

  /** `SEP`: 48 dashes. */
  const Sep: string := "------------------------------------------------"
  const Title: string := "Time To Merge Stats"
  const PercentilesHeader: string := "Percentiles:"
  const ThresholdsHeader: string := "Percentage of Merges Within:"
  const PercentileRanks: seq<int> := [50, 60, 70, 80, 90, 95]
  const ThresholdDays: seq<int> := [0, 1, 2, 3, 5, 7, 10]
  /** What `join` puts between the entries of a row. */
  const EntrySeparator: string := "     "
  /** The captions of the lines printed by lines 65-67. */
  const MeanCaption: string := "  Mean: "
  const MedianCaption: string := "Median: "
  const StdDevCaption: string := "StdDev: "
  /** What `rescue '-1'` hands to `format` when `percentile_from_value` raises. */
  const FailedPercentile: string := "-1"

  /**
   * The statistics object of one sample, as the report sees it. For `min`,
   * `max`, the `%5.2f` texts and `value_from_percentile`, `None` stands for
   * a call that raises or gives a value `format` cannot take. For
   * `percentile_from_value`, whose call sits inside a `rescue`, `None`
   * stands for a call that raises. Mean, median and standard deviation are
   * carried as their `%5.2f` renderings.
   */
  datatype Stats = Stats(
    min: Option<int>,
    max: Option<int>,
    meanText: Option<string>,
    medianText: Option<string>,
    standardDeviationText: Option<string>,
    valueFromPercentile: int -> Option<int>,
    percentileFromValue: int -> Option<int>)

  /** `format(' Range: %2d - %2d days', stats.min, stats.max)`. */
  function RangeLine(stats: Stats): (r: Result<string, Error>)
    ensures r.Ok? <==> stats.min.Some? && stats.max.Some?
    ensures r.Err? ==> r.error == StatisticFailed
  {
    if stats.min.None? || stats.max.None? then Err(StatisticFailed)
    else Ok(" Range: " + FormatInt(stats.min.value, 2) + " - " + FormatInt(stats.max.value, 2) + " days")
  }

  /** One of the Mean, Median and StdDev lines: the caption, then the `%5.2f` text. */
  function FixedLine(caption: string, text: Option<string>): (r: Result<string, Error>)
    ensures r.Ok? <==> text.Some?
    ensures r.Err? ==> r.error == StatisticFailed
  {
    match text
    case Some(t) => Ok(caption + t)
    case None => Err(StatisticFailed)
  }

  /** `format("#{n}%% <= %2d d", stats.value_from_percentile(n))`. */
  function PercentileEntry(stats: Stats, n: int): (r: Result<string, Error>)
    ensures r.Ok? <==> stats.valueFromPercentile(n).Some?
    ensures r.Err? ==> r.error == StatisticFailed
  {
    match stats.valueFromPercentile(n)
    case Some(v) => Ok(IntToString(n) + "% <= " + FormatInt(v, 2) + " d")
    case None => Err(StatisticFailed)
  }

  /** The entries of one percentile row, each computed on its own. */
  function PercentileEntries(stats: Stats, ranks: seq<int>): (rs: seq<Result<string, Error>>)
    ensures |rs| == |ranks|
  {
    Map(n => PercentileEntry(stats, n), ranks)
  }

  /**
   * One line of the percentile block: `ptiles.map { … }` raises at the first
   * entry that raises, so the row is printed exactly when every rank has a value.
   */
  function PercentileRow(stats: Stats, ranks: seq<int>): (r: Result<string, Error>)
    ensures r.Ok? <==> PercentilesAvailable(stats, ranks)
    ensures r.Err? ==> r.error == StatisticFailed
  {
    PercentileEntriesMeaning(stats, ranks);
    var entries :- AllOk(PercentileEntries(stats, ranks));
    Ok(Join(entries, EntrySeparator))
  }

  lemma PercentileEntriesMeaning(stats: Stats, ranks: seq<int>)
    ensures var all := AllOk(PercentileEntries(stats, ranks));
            && (all.Ok? <==> PercentilesAvailable(stats, ranks))
            && (all.Err? ==> all.error == StatisticFailed)
  {
    var rs := PercentileEntries(stats, ranks);
    AllOkMeaning(rs);
    assert forall i :: 0 <= i < |ranks| ==> rs[i] == PercentileEntry(stats, ranks[i]);
  }

  /** The argument `format` receives: an Integer, or the String that `rescue` substitutes. */
  datatype FormatArg = IntArg(i: int) | StrArg(s: string)

  /** `%d` applied to an argument: Strings go through Kernel#Integer. */
  function IntegerOf(arg: FormatArg): Option<int> {
    match arg
    case IntArg(i) => Some(i)
    case StrArg(s) => ParseInt(s)
  }

  /** `(stats.percentile_from_value(n) rescue '-1')`. */
  function PercentileOrFallback(stats: Stats, n: int): (arg: FormatArg)
    ensures IntegerOf(arg) == Some(match stats.percentileFromValue(n) case Some(p) => p case None => -1)
  {
    match stats.percentileFromValue(n)
    case Some(p) => IntArg(p)
    case None =>
      assert IntToString(-1) == FailedPercentile by {
        assert NatToString(1) == "1";
      }
      IntToStringRoundTrip(-1);
      StrArg(FailedPercentile)
  }

  /**
   * `format("%2d days: %2d%%", n, …)`: never raises, because the fallback
   * String converts to -1.
   */
  function ThresholdEntry(stats: Stats, n: int): string {
    match IntegerOf(PercentileOrFallback(stats, n))
    case Some(p) => FormatInt(n, 2) + " days: " + FormatInt(p, 2) + "%"
    case None => assert false; ""
  }

  /**
   * Entry `n` of the threshold block shows `n` and the percentile of `n`
   * days, or -1 when `percentile_from_value(n)` raised.
   */
  lemma ThresholdEntryText(stats: Stats, n: int)
    ensures ThresholdEntry(stats, n) ==
              FormatInt(n, 2) + " days: "
              + FormatInt(match stats.percentileFromValue(n) case Some(p) => p case None => -1, 2) + "%"
  {
  }

  /** `ptiles.map { … }` over ThresholdEntry. */
  function ThresholdEntries(stats: Stats, days: seq<int>): (r: seq<string>)
    ensures |r| == |days|
  {
    Map(n => ThresholdEntry(stats, n), days)
  }

  /** Formatting one more threshold appends its entry. */
  lemma ThresholdEntriesAppend(stats: Stats, days: seq<int>, n: int)
    ensures ThresholdEntries(stats, days + [n]) == ThresholdEntries(stats, days) + [ThresholdEntry(stats, n)]
  {
    MapAppend(n => ThresholdEntry(stats, n), days, n);
  }

  lemma ThresholdEntriesStep(stats: Stats, days: seq<int>, j: int, texts: seq<string>, entry: string)
    requires 0 <= j < |days| && texts == ThresholdEntries(stats, days[..j])
    requires entry == ThresholdEntry(stats, days[j])
    ensures texts + [entry] == ThresholdEntries(stats, days[..j + 1])
  {
    ThresholdEntriesAppend(stats, days[..j], days[j]);
    assert days[..j + 1] == days[..j] + [days[j]];
  }

  /** One line of the threshold block. */
  function ThresholdRow(stats: Stats, days: seq<int>): string {
    Join(ThresholdEntries(stats, days), EntrySeparator)
  }

  /** Each further day of a threshold row adds the separator and its entry. */
  lemma ThresholdRowAppend(stats: Stats, days: seq<int>, n: int)
    requires days != []
    ensures ThresholdRow(stats, days + [n]) == ThresholdRow(stats, days) + EntrySeparator + ThresholdEntry(stats, n)
  {
    ThresholdEntriesAppend(stats, days, n);
    JoinAppend(ThresholdEntries(stats, days), [ThresholdEntry(stats, n)], EntrySeparator);
  }

  function PercentileRows(stats: Stats, slices: seq<seq<int>>): (steps: seq<Result<string, Error>>)
    ensures |steps| == |slices|
  {
    Map(ranks => PercentileRow(stats, ranks), slices)
  }

  /** The texts of the threshold rows, one per slice. */
  function ThresholdTexts(stats: Stats, slices: seq<seq<int>>): (r: seq<string>)
    ensures |r| == |slices|
  {
    Map(days => ThresholdRow(stats, days), slices)
  }

  /** The threshold rows never raise: each step prints the text of its row. */
  function ThresholdRows(stats: Stats, slices: seq<seq<int>>): (steps: seq<Result<string, Error>>)
    ensures |steps| == |slices|
  {
    Lines(ThresholdTexts(stats, slices))
  }

  function HeaderLines(description: string, sampleCount: nat): seq<string> {
    [Sep, Title, description, "n = " + IntToString(sampleCount), Sep]
  }

  function SummarySteps(stats: Stats): seq<Result<string, Error>> {
    [RangeLine(stats),
     FixedLine(MeanCaption, stats.meanText),
     FixedLine(MedianCaption, stats.medianText),
     FixedLine(StdDevCaption, stats.standardDeviationText)]
  }

  const FooterSteps: seq<Result<string, Error>> := [Ok(Sep), Ok("")]

  function ThresholdSteps(stats: Stats): seq<Result<string, Error>> {
    [Ok(Sep), Ok(ThresholdsHeader)] + ThresholdRows(stats, EachSlice(ThresholdDays, 2))
  }

  function PercentileSteps(stats: Stats): seq<Result<string, Error>> {
    [Ok(Sep), Ok(PercentilesHeader)] + PercentileRows(stats, EachSlice(PercentileRanks, 3))
  }

  /** The `puts` calls of `report`, in order, each with the line it prints or the error it raises. */
  function ReportPlan(stats: Stats, description: string, sampleCount: nat): seq<Result<string, Error>> {
    Lines(HeaderLines(description, sampleCount))
      + SummarySteps(stats)
      + PercentileSteps(stats)
      + ThresholdSteps(stats)
      + FooterSteps
  }

  /** Every call `report` makes that can raise gives a value. */
  predicate SummaryAvailable(stats: Stats) {
    && stats.min.Some? && stats.max.Some?
    && stats.meanText.Some? && stats.medianText.Some? && stats.standardDeviationText.Some?
    && forall n :: n in PercentileRanks ==> stats.valueFromPercentile(n).Some?
  }

  /** Every rank in `ranks` has a value. */
  predicate PercentilesAvailable(stats: Stats, ranks: seq<int>) {
    forall i :: 0 <= i < |ranks| ==> stats.valueFromPercentile(ranks[i]).Some?
  }

  /** The texts of the entries of a percentile row whose values are all available. */
  function PercentileTexts(stats: Stats, ranks: seq<int>): (r: seq<string>)
    requires PercentilesAvailable(stats, ranks)
    ensures |r| == |ranks|
  {
    if ranks == [] then []
    else
      assert forall i :: 1 <= i < |ranks| ==> ranks[1..][i - 1] == ranks[i];
      [PercentileEntry(stats, ranks[0]).value] + PercentileTexts(stats, ranks[1..])
  }

  /** A threshold entry whose `percentile_from_value` raised shows -1. */
  lemma ThresholdFallback(stats: Stats, n: int)
    requires stats.percentileFromValue(n).None?
    ensures ThresholdEntry(stats, n) == FormatInt(n, 2) + " days: -1%"
  {
    var arg := PercentileOrFallback(stats, n);
    assert arg == StrArg(FailedPercentile);
    assert IntegerOf(arg) == Some(-1);
    calc {
      FormatInt(-1, 2);
      IntToString(-1);
      { assert NatToString(1) == "1"; }
      "-1";
    }
  }

  lemma {:induction false} PercentileSlices()
    ensures EachSlice(PercentileRanks, 3) == [PercentileRanks[..3], PercentileRanks[3..]]
  {
    assert PercentileRanks[..3] == [50, 60, 70] && PercentileRanks[3..] == [80, 90, 95];
    assert EachSlice([80, 90, 95], 3) == [[80, 90, 95]];
  }

  lemma {:induction false} ThresholdSlices()
    ensures EachSlice(ThresholdDays, 2) == [[0, 1], [2, 3], [5, 7], [10]]
  {
    assert ThresholdDays[..2] == [0, 1] && ThresholdDays[2..] == [2, 3, 5, 7, 10];
    var rest := [2, 3, 5, 7, 10];
    assert rest[..2] == [2, 3] && rest[2..] == [5, 7, 10];
    var rest2 := [5, 7, 10];
    assert rest2[..2] == [5, 7] && rest2[2..] == [10];
    assert EachSlice([10], 2) == [[10]];
  }

  lemma {:induction false} PercentileRowAvailable(stats: Stats, ranks: seq<int>)
    requires PercentilesAvailable(stats, ranks)
    ensures AllOk(PercentileEntries(stats, ranks)) == Ok(PercentileTexts(stats, ranks))
    ensures PercentileRow(stats, ranks) == Ok(Join(PercentileTexts(stats, ranks), EntrySeparator))
  {
    if ranks != [] {
      assert forall i :: 1 <= i < |ranks| ==> ranks[1..][i - 1] == ranks[i];
      PercentileRowAvailable(stats, ranks[1..]);
      var rs := PercentileEntries(stats, ranks);
      assert rs[1..] == PercentileEntries(stats, ranks[1..]);
      assert ranks[0] == ranks[0 as int];
    }
  }

  /** A percentile row raises with the first entry whose value is missing. */
  lemma PercentileRowFirstFailure(stats: Stats, ranks: seq<int>, j: int)
    requires 0 <= j < |ranks| && PercentilesAvailable(stats, ranks[..j])
    requires stats.valueFromPercentile(ranks[j]).None?
    ensures PercentileRow(stats, ranks) == Err(StatisticFailed)
  {
    var rs := PercentileEntries(stats, ranks);
    AllOkMeaning(rs);
    assert rs[j].Err?;
    var first :| 0 <= first < |rs| && rs[first] == Err(AllOk(rs).error) && forall i :: 0 <= i < first ==> rs[i].Ok?;
    assert forall i :: 0 <= i < j ==> ranks[..j][i] == ranks[i];
    assert first == j;
  }

  /** Formatting one more available entry appends its text. */
  lemma {:induction false} PercentileTextsAppend(stats: Stats, ranks: seq<int>, n: int)
    requires PercentilesAvailable(stats, ranks) && stats.valueFromPercentile(n).Some?
    ensures PercentilesAvailable(stats, ranks + [n])
    ensures PercentileTexts(stats, ranks + [n]) == PercentileTexts(stats, ranks) + [PercentileEntry(stats, n).value]
  {
    assert forall i :: 0 <= i < |ranks| ==> (ranks + [n])[i] == ranks[i];
    assert (ranks + [n])[|ranks|] == n;
    if ranks == [] {
      assert ranks + [n] == [n];
    } else {
      assert (ranks + [n])[1..] == ranks[1..] + [n];
      assert forall i :: 1 <= i < |ranks| ==> ranks[1..][i - 1] == ranks[i];
      PercentileTextsAppend(stats, ranks[1..], n);
    }
  }

  lemma PercentilesAvailableStep(stats: Stats, ranks: seq<int>, j: int)
    requires 0 <= j < |ranks| && PercentilesAvailable(stats, ranks[..j])
    requires stats.valueFromPercentile(ranks[j]).Some?
    ensures PercentilesAvailable(stats, ranks[..j + 1])
  {
    assert forall i :: 0 <= i < j ==> ranks[..j + 1][i] == ranks[..j][i];
    assert ranks[..j + 1][j] == ranks[j];
  }

  lemma PercentileRowStep(stats: Stats, ranks: seq<int>, j: int, texts: seq<string>)
    requires 0 <= j < |ranks| && PercentilesAvailable(stats, ranks[..j]) && texts == PercentileTexts(stats, ranks[..j])
    requires stats.valueFromPercentile(ranks[j]).Some? && PercentilesAvailable(stats, ranks[..j + 1])
    ensures texts + [PercentileEntry(stats, ranks[j]).value] == PercentileTexts(stats, ranks[..j + 1])
  {
    PercentileTextsAppend(stats, ranks[..j], ranks[j]);
    assert ranks[..j + 1] == ranks[..j] + [ranks[j]];
  }

  /** Every step in `steps` that raises, raises StatisticFailed. */
  predicate OnlyStatisticFailures(steps: seq<Result<string, Error>>) {
    forall i :: 0 <= i < |steps| && steps[i].Err? ==> steps[i].error == StatisticFailed
  }

  lemma PercentileRowsFailures(stats: Stats, slices: seq<seq<int>>)
    ensures OnlyStatisticFailures(PercentileRows(stats, slices))
  {
    var rows := PercentileRows(stats, slices);
    assert forall i :: 0 <= i < |slices| ==> rows[i] == PercentileRow(stats, slices[i]);
  }

  /** The 21 lines `report` prints when every statistic it formats is available. */
  function CompleteReport(stats: Stats, description: string, sampleCount: nat): seq<string>
    requires SummaryAvailable(stats)
  {
    HeaderLines(description, sampleCount)
      + SummaryTexts(stats)
      + ([Sep, PercentilesHeader] + PercentileRowTexts(stats))
      + ([Sep, ThresholdsHeader] + ThresholdRowTexts(stats))
      + [Sep, ""]
  }

  function SummaryTexts(stats: Stats): seq<string>
    requires SummaryAvailable(stats)
  {
    [" Range: " + FormatInt(stats.min.value, 2) + " - " + FormatInt(stats.max.value, 2) + " days",
     MeanCaption + stats.meanText.value,
     MedianCaption + stats.medianText.value,
     StdDevCaption + stats.standardDeviationText.value]
  }

  /** The two percentile rows: three entries each. */
  function PercentileRowTexts(stats: Stats): seq<string>
    requires SummaryAvailable(stats)
  {
    assert forall i :: 0 <= i < 3 ==> PercentileRanks[..3][i] in PercentileRanks;
    assert forall i :: 0 <= i < 3 ==> PercentileRanks[3..][i] in PercentileRanks;
    [Join(PercentileTexts(stats, PercentileRanks[..3]), EntrySeparator),
     Join(PercentileTexts(stats, PercentileRanks[3..]), EntrySeparator)]
  }

  /** The four threshold rows: two, two, two and one entries. */
  function ThresholdRowTexts(stats: Stats): seq<string> {
    [Join([ThresholdEntry(stats, 0), ThresholdEntry(stats, 1)], EntrySeparator),
     Join([ThresholdEntry(stats, 2), ThresholdEntry(stats, 3)], EntrySeparator),
     Join([ThresholdEntry(stats, 5), ThresholdEntry(stats, 7)], EntrySeparator),
     ThresholdEntry(stats, 10)]
  }

  lemma ThresholdRowPair(stats: Stats, a: int, b: int)
    ensures ThresholdRow(stats, [a, b]) == Join([ThresholdEntry(stats, a), ThresholdEntry(stats, b)], EntrySeparator)
  {
    assert ThresholdEntries(stats, [a, b]) == [ThresholdEntry(stats, a), ThresholdEntry(stats, b)];
  }

  lemma ThresholdRowSingle(stats: Stats, a: int)
    ensures ThresholdRow(stats, [a]) == ThresholdEntry(stats, a)
  {
    assert ThresholdEntries(stats, [a]) == [ThresholdEntry(stats, a)];
  }

  lemma ThresholdTextsFour(stats: Stats, a: seq<int>, b: seq<int>, c: seq<int>, d: seq<int>)
    ensures ThresholdTexts(stats, [a, b, c, d])
         == [ThresholdRow(stats, a), ThresholdRow(stats, b), ThresholdRow(stats, c), ThresholdRow(stats, d)]
  {
  }

  lemma ThresholdRowsLines(stats: Stats)
    ensures ThresholdRows(stats, EachSlice(ThresholdDays, 2)) == Lines(ThresholdRowTexts(stats))
  {
    ThresholdSlices();
    ThresholdTextsFour(stats, [0, 1], [2, 3], [5, 7], [10]);
    ThresholdRowPair(stats, 0, 1);
    ThresholdRowPair(stats, 2, 3);
    ThresholdRowPair(stats, 5, 7);
    ThresholdRowSingle(stats, 10);
  }

  lemma PercentileRowsPairLines(stats: Stats, a: seq<int>, b: seq<int>)
    requires PercentilesAvailable(stats, a) && PercentilesAvailable(stats, b)
    ensures PercentileRows(stats, [a, b])
         == Lines([Join(PercentileTexts(stats, a), EntrySeparator), Join(PercentileTexts(stats, b), EntrySeparator)])
  {
    PercentileRowAvailable(stats, a);
    PercentileRowAvailable(stats, b);
  }

  lemma PercentileRowsLines(stats: Stats)
    requires SummaryAvailable(stats)
    ensures PercentileRows(stats, EachSlice(PercentileRanks, 3)) == Lines(PercentileRowTexts(stats))
  {
    PercentileSlices();
    assert forall i :: 0 <= i < 3 ==> PercentileRanks[..3][i] in PercentileRanks;
    assert forall i :: 0 <= i < 3 ==> PercentileRanks[3..][i] in PercentileRanks;
    PercentileRowsPairLines(stats, PercentileRanks[..3], PercentileRanks[3..]);
  }

  /** The plan of a report whose statistics are all available is its 21 lines, none raising. */
  lemma SummaryStepsLines(stats: Stats)
    requires SummaryAvailable(stats)
    ensures SummarySteps(stats) == Lines(SummaryTexts(stats))
  {
    LinesAt(SummaryTexts(stats));
  }

  lemma PercentileStepsLines(stats: Stats)
    requires SummaryAvailable(stats)
    ensures PercentileSteps(stats) == Lines([Sep, PercentilesHeader] + PercentileRowTexts(stats))
  {
    PercentileRowsLines(stats);
    LinesConcat([Sep, PercentilesHeader], PercentileRowTexts(stats));
  }

  lemma ThresholdStepsLines(stats: Stats)
    ensures ThresholdSteps(stats) == Lines([Sep, ThresholdsHeader] + ThresholdRowTexts(stats))
  {
    ThresholdRowsLines(stats);
    LinesConcat([Sep, ThresholdsHeader], ThresholdRowTexts(stats));
  }

  lemma PlanBlocks(stats: Stats, description: string, sampleCount: nat)
    requires SummaryAvailable(stats)
    ensures ReportPlan(stats, description, sampleCount) ==
              Lines(HeaderLines(description, sampleCount))
                + Lines(SummaryTexts(stats))
                + Lines([Sep, PercentilesHeader] + PercentileRowTexts(stats))
                + Lines([Sep, ThresholdsHeader] + ThresholdRowTexts(stats))
                + Lines([Sep, ""])
  {
    var s := Lines(SummaryTexts(stats));
    var p := Lines([Sep, PercentilesHeader] + PercentileRowTexts(stats));
    var t := Lines([Sep, ThresholdsHeader] + ThresholdRowTexts(stats));
    var f := Lines([Sep, ""]);
    SummaryStepsLines(stats);
    PercentileStepsLines(stats);
    ThresholdStepsLines(stats);
    FooterLines();
    Substitute(Lines(HeaderLines(description, sampleCount)), SummarySteps(stats), s, PercentileSteps(stats), p, ThresholdSteps(stats), t, FooterSteps, f);
  }

  lemma FooterLines()
    ensures FooterSteps == Lines([Sep, ""])
  {
    LinesAt([Sep, ""]);
  }

  lemma Substitute<T>(h: seq<T>, s: seq<T>, s': seq<T>, p: seq<T>, p': seq<T>, t: seq<T>, t': seq<T>, f: seq<T>, f': seq<T>)
    requires s == s' && p == p' && t == t' && f == f'
    ensures h + s + p + t + f == h + s' + p' + t' + f'
  {
  }

  lemma LinesConcat5(a: seq<string>, b: seq<string>, c: seq<string>, d: seq<string>, e: seq<string>)
    ensures Lines(a) + Lines(b) + Lines(c) + Lines(d) + Lines(e) == Lines(a + b + c + d + e)
  {
    LinesConcat(a, b);
    LinesConcat(a + b, c);
    LinesConcat(a + b + c, d);
    LinesConcat(a + b + c + d, e);
  }

  lemma PlanLines(stats: Stats, description: string, sampleCount: nat)
    requires SummaryAvailable(stats)
    ensures ReportPlan(stats, description, sampleCount) == Lines(CompleteReport(stats, description, sampleCount))
  {
    PlanBlocks(stats, description, sampleCount);
    LinesConcat5(HeaderLines(description, sampleCount), SummaryTexts(stats),
      [Sep, PercentilesHeader] + PercentileRowTexts(stats), [Sep, ThresholdsHeader] + ThresholdRowTexts(stats), [Sep, ""]);
  }

  /** Where each block of a complete report sits among its 21 lines. */
  lemma CompleteReportLayout(stats: Stats, description: string, sampleCount: nat)
    requires SummaryAvailable(stats)
    ensures var lines := CompleteReport(stats, description, sampleCount);
            && |lines| == 21
            && lines[0] == Sep && lines[4] == Sep && lines[9] == Sep && lines[13] == Sep && lines[19] == Sep
            && lines[20] == ""
            && lines[1] == Title && lines[2] == description && lines[3] == "n = " + IntToString(sampleCount)
            && lines[10] == PercentilesHeader && lines[14] == ThresholdsHeader
            && lines[5..9] == SummaryTexts(stats)
            && lines[11..13] == PercentileRowTexts(stats)
            && lines[15..19] == ThresholdRowTexts(stats)
  {
    BlockShapes(stats);
    BlockPositions(HeaderLines(description, sampleCount), SummaryTexts(stats),
      [Sep, PercentilesHeader] + PercentileRowTexts(stats), [Sep, ThresholdsHeader] + ThresholdRowTexts(stats), [Sep, ""]);
    assert ([Sep, PercentilesHeader] + PercentileRowTexts(stats))[2..] == PercentileRowTexts(stats);
    assert ([Sep, ThresholdsHeader] + ThresholdRowTexts(stats))[2..] == ThresholdRowTexts(stats);
  }

  lemma BlockShapes(stats: Stats)
    requires SummaryAvailable(stats)
    ensures |SummaryTexts(stats)| == 4 && |PercentileRowTexts(stats)| == 2 && |ThresholdRowTexts(stats)| == 4
  {
  }

  /** Positions in five concatenated blocks of 5, 4, 4, 6 and 2 lines. */
  lemma BlockPositions<T>(h: seq<T>, s: seq<T>, p: seq<T>, t: seq<T>, f: seq<T>)
    requires |h| == 5 && |s| == 4 && |p| == 4 && |t| == 6 && |f| == 2
    ensures var all := h + s + p + t + f;
            && |all| == 21
            && all[..5] == h
            && all[9] == p[0] && all[10] == p[1]
            && all[13] == t[0] && all[14] == t[1]
            && all[19] == f[0] && all[20] == f[1]
            && all[5..9] == s && all[11..13] == p[2..] && all[15..19] == t[2..]
  {
    var all := h + s + p + t + f;
    assert all[..5] == h;
    assert all[5..9] == s;
    assert all[11..13] == p[2..];
    assert all[15..19] == t[2..];
  }

  /**
   * With every statistic available, `report` prints 21 lines without
   * raising: SEP first, SEP and a blank line last, SEP before each block.
   */
  lemma ReportCompletes(stats: Stats, description: string, sampleCount: nat)
    requires SummaryAvailable(stats)
    ensures Execute(ReportPlan(stats, description, sampleCount)) == Output(CompleteReport(stats, description, sampleCount), None)
    ensures var lines := CompleteReport(stats, description, sampleCount);
            && |lines| == 21
            && lines[0] == Sep && lines[4] == Sep && lines[9] == Sep && lines[13] == Sep && lines[19] == Sep
            && lines[20] == ""
            && lines[1] == Title && lines[2] == description && lines[3] == "n = " + IntToString(sampleCount)
            && lines[10] == PercentilesHeader && lines[14] == ThresholdsHeader
            && lines[5..9] == SummaryTexts(stats)
            && lines[11..13] == PercentileRowTexts(stats)
            && lines[15..19] == ThresholdRowTexts(stats)
  {
    PlanLines(stats, description, sampleCount);
    ExecuteLines(CompleteReport(stats, description, sampleCount));
    CompleteReportLayout(stats, description, sampleCount);
  }

  lemma OnlyStatisticFailuresConcat(a: seq<Result<string, Error>>, b: seq<Result<string, Error>>)
    requires OnlyStatisticFailures(a) && OnlyStatisticFailures(b)
    ensures OnlyStatisticFailures(a + b)
  {
    forall i | 0 <= i < |a + b| && (a + b)[i].Err? ensures (a + b)[i].error == StatisticFailed {
      if i >= |a| {
        assert (a + b)[i] == b[i - |a|];
      }
    }
  }

  lemma LinesNeverFail(lines: seq<string>)
    ensures OnlyStatisticFailures(Lines(lines))
  {
    LinesAt(lines);
  }

  lemma SummaryFailures(stats: Stats)
    ensures OnlyStatisticFailures(SummarySteps(stats))
  {
  }

  lemma PercentileFailures(stats: Stats)
    ensures OnlyStatisticFailures(PercentileSteps(stats))
  {
    PercentileRowsFailures(stats, EachSlice(PercentileRanks, 3));
    OnlyStatisticFailuresConcat([Ok(Sep), Ok(PercentilesHeader)], PercentileRows(stats, EachSlice(PercentileRanks, 3)));
  }

  lemma ThresholdFailures(stats: Stats)
    ensures OnlyStatisticFailures(ThresholdSteps(stats))
  {
    var rows := ThresholdRows(stats, EachSlice(ThresholdDays, 2));
    LinesNeverFail(ThresholdTexts(stats, EachSlice(ThresholdDays, 2)));
    OnlyStatisticFailuresConcat([Ok(Sep), Ok(ThresholdsHeader)], rows);
  }

  /** Whatever `report` raises is a failed statistic. */
  lemma PlanFailures(stats: Stats, description: string, sampleCount: nat)
    ensures OnlyStatisticFailures(ReportPlan(stats, description, sampleCount))
  {
    var h := Lines(HeaderLines(description, sampleCount));
    var s := SummarySteps(stats);
    var p := PercentileSteps(stats);
    var t := ThresholdSteps(stats);
    LinesNeverFail(HeaderLines(description, sampleCount));
    SummaryFailures(stats);
    PercentileFailures(stats);
    ThresholdFailures(stats);
    OnlyStatisticFailuresConcat(h, s);
    OnlyStatisticFailuresConcat(h + s, p);
    OnlyStatisticFailuresConcat(h + s + p, t);
    OnlyStatisticFailuresConcat(h + s + p + t, FooterSteps);
  }

  /** The plan has 21 steps and its first five print the header. */
  lemma PlanShape(stats: Stats, description: string, sampleCount: nat)
    ensures var plan := ReportPlan(stats, description, sampleCount);
            && |plan| == 21
            && forall i :: 0 <= i < 5 ==> plan[i] == Ok(HeaderLines(description, sampleCount)[i])
  {
    PercentileSlices();
    ThresholdSlices();
    var h := HeaderLines(description, sampleCount);
    LinesAt(h);
    var plan := ReportPlan(stats, description, sampleCount);
    assert plan[..5] == Lines(h);
  }

  /** Some step in `steps` raises. */
  predicate Raises(steps: seq<Result<string, Error>>) {
    exists i :: 0 <= i < |steps| && steps[i].Err?
  }

  lemma RaisesBefore(a: seq<Result<string, Error>>, b: seq<Result<string, Error>>)
    requires Raises(a)
    ensures Raises(a + b)
  {
    var i :| 0 <= i < |a| && a[i].Err?;
    assert (a + b)[i] == a[i];
  }

  lemma RaisesAfter(a: seq<Result<string, Error>>, b: seq<Result<string, Error>>)
    requires Raises(b)
    ensures Raises(a + b)
  {
    var i :| 0 <= i < |b| && b[i].Err?;
    assert (a + b)[|a| + i] == b[i];
  }

  lemma PercentileRowsPair(stats: Stats, a: seq<int>, b: seq<int>)
    ensures PercentileRows(stats, [a, b]) == [PercentileRow(stats, a), PercentileRow(stats, b)]
  {
  }

  /** A missing percentile value makes one of the percentile rows raise. */
  lemma PercentileStepsRaise(stats: Stats, j: int)
    requires 0 <= j < |PercentileRanks| && stats.valueFromPercentile(PercentileRanks[j]).None?
    ensures Raises(PercentileSteps(stats))
  {
    PercentileSlices();
    PercentileRowsPair(stats, PercentileRanks[..3], PercentileRanks[3..]);
    var steps := PercentileSteps(stats);
    if j < 3 {
      assert PercentileRanks[..3][j] == PercentileRanks[j];
      assert !PercentilesAvailable(stats, PercentileRanks[..3]);
      assert steps[2] == PercentileRow(stats, PercentileRanks[..3]);
    } else {
      assert PercentileRanks[3..][j - 3] == PercentileRanks[j];
      assert !PercentilesAvailable(stats, PercentileRanks[3..]);
      assert steps[3] == PercentileRow(stats, PercentileRanks[3..]);
    }
  }

  /** If a statistic `report` formats is missing, some step of its plan raises. */
  lemma PlanRaisesSomewhere(stats: Stats, description: string, sampleCount: nat)
    requires !SummaryAvailable(stats)
    ensures Raises(ReportPlan(stats, description, sampleCount))
  {
    var h := Lines(HeaderLines(description, sampleCount));
    var ss := SummarySteps(stats);
    var p := PercentileSteps(stats);
    if ss[0].Err? || ss[1].Err? || ss[2].Err? || ss[3].Err? {
      assert Raises(ss);
      RaisesAfter(h, ss);
      RaisesBefore(h + ss, p);
    } else {
      var n :| n in PercentileRanks && stats.valueFromPercentile(n).None?;
      var j :| 0 <= j < |PercentileRanks| && PercentileRanks[j] == n;
      PercentileStepsRaise(stats, j);
      RaisesAfter(h + ss, p);
    }
    RaisesBefore(h + ss + p, ThresholdSteps(stats));
    RaisesBefore(h + ss + p + ThresholdSteps(stats), FooterSteps);
  }

  /**
   * If a statistic `report` formats is missing, `report` prints the header
   * and stops part-way with the statistic's error.
   */
  lemma ReportRaises(stats: Stats, description: string, sampleCount: nat)
    requires !SummaryAvailable(stats)
    ensures var out := Execute(ReportPlan(stats, description, sampleCount));
            && out.raised == Some(StatisticFailed)
            && 5 <= |out.lines| < 21
            && out.lines[..5] == HeaderLines(description, sampleCount)
  {
    var plan := ReportPlan(stats, description, sampleCount);
    var out := Execute(plan);
    PlanShape(stats, description, sampleCount);
    PlanFailures(stats, description, sampleCount);
    PlanRaisesSomewhere(stats, description, sampleCount);
    var i :| 0 <= i < |plan| && plan[i].Err?;
    assert plan[|out.lines|].Err?;
    assert out.lines[..5] == HeaderLines(description, sampleCount);
  }

  /**
   * One `puts`: prints the line of `step`, or raises its error. `out` is
   * the console after the call; when it raised, it is already the outcome
   * of the whole plan.
   */
  method Puts(ghost plan: seq<Result<string, Error>>, lines: seq<string>, ghost todo: seq<Result<string, Error>>,
              step: Result<string, Error>)
    returns (out: Output)
    requires plan == Lines(lines) + todo && todo != [] && todo[0] == step
    ensures out.raised.None? <==> step.Ok?
    ensures out.raised.Some? ==> out == Execute(plan)
    ensures out.raised.None? ==> out.lines == lines + [step.value] && plan == Lines(out.lines) + todo[1..]
  {
    match step
    case Err(e) =>
      StopsAt(plan, lines, todo);
      out := Output(lines, Some(e));
    case Ok(line) =>
      Advance(plan, lines, todo, line);
      out := Output(lines + [line], None);
  }

  /** `ptiles.map { … }.join('     ')` for a percentile row, entry by entry. */
  method FormatPercentileRow(stats: Stats, ranks: seq<int>) returns (r: Result<string, Error>)
    ensures r == PercentileRow(stats, ranks)
  {
    var texts: seq<string> := [];
    var j := 0;
    while j < |ranks|
      invariant 0 <= j <= |ranks|
      invariant PercentilesAvailable(stats, ranks[..j]) && texts == PercentileTexts(stats, ranks[..j])
    {
      var entry := PercentileEntry(stats, ranks[j]);
      if entry.Err? {
        PercentileRowFirstFailure(stats, ranks, j);
        return Err(entry.error);
      }
      PercentilesAvailableStep(stats, ranks, j);
      PercentileRowStep(stats, ranks, j, texts);
      texts := texts + [entry.value];
      j := j + 1;
    }
    assert ranks[..j] == ranks;
    PercentileRowAvailable(stats, ranks);
    r := Ok(Join(texts, EntrySeparator));
  }

  /** `ptiles.map { … }.join('     ')` for a threshold row, entry by entry. */
  method FormatThresholdRow(stats: Stats, days: seq<int>) returns (r: string)
    ensures r == ThresholdRow(stats, days)
  {
    var texts: seq<string> := [];
    var j := 0;
    while j < |days|
      invariant 0 <= j <= |days|
      invariant texts == ThresholdEntries(stats, days[..j])
    {
      var entry := ThresholdEntry(stats, days[j]);
      ThresholdEntriesStep(stats, days, j, texts, entry);
      texts := texts + [entry];
      j := j + 1;
    }
    assert days[..j] == days;
    r := Join(texts, EntrySeparator);
  }

  /**
   * `report(stats, description, sample_count)`: the `puts` calls in order,
   * with the two `each_slice` loops; it stops at the first call that raises.
   */
  method Report(stats: Stats, description: string, sampleCount: nat) returns (out: Output)
    ensures out == Execute(ReportPlan(stats, description, sampleCount))
  {
    ghost var plan := ReportPlan(stats, description, sampleCount);
    var percentileSlices := EachSlice(PercentileRanks, 3);
    var thresholdSlices := EachSlice(ThresholdDays, 2);
    ghost var thresholds := [Ok(Sep), Ok(ThresholdsHeader)] + (ThresholdRows(stats, thresholdSlices) + FooterSteps);
    ghost var percentiles := [Ok(Sep), Ok(PercentilesHeader)] + (PercentileRows(stats, percentileSlices) + thresholds);
    PlanRegrouped(stats, description, sampleCount, percentileSlices, thresholdSlices);
    var header := HeaderLines(description, sampleCount);
    out := PrintSummary(stats, plan, header, percentiles);
    if out.raised.Some? {
      return;
    }
    out := PrintPercentiles(stats, plan, out.lines, percentileSlices, thresholds);
    if out.raised.Some? {
      return;
    }
    var printed := PrintThresholds(stats, plan, out.lines, thresholdSlices, FooterSteps);
    out := PrintFooter(plan, printed);
  }

  /** The four summary lines; the Range, Mean, Median and StdDev calls each may raise. */
  method PrintSummary(stats: Stats, ghost plan: seq<Result<string, Error>>, lines: seq<string>,
                      ghost after: seq<Result<string, Error>>)
    returns (out: Output)
    requires plan == Lines(lines) + (SummarySteps(stats) + after)
    ensures out.raised.Some? ==> out == Execute(plan)
    ensures out.raised.None? ==> plan == Lines(out.lines) + after
  {
    var summary := SummarySteps(stats);
    out := Output(lines, None);
    var k := 0;
    while k < |summary|
      invariant 0 <= k <= |summary| && out.raised.None?
      invariant plan == Lines(out.lines) + (summary[k..] + after)
    {
      out := Puts(plan, out.lines, summary[k..] + after, summary[k]);
      if out.raised.Some? {
        return;
      }
      assert (summary[k..] + after)[1..] == summary[k + 1..] + after;
      k := k + 1;
    }
    assert summary[k..] + after == after;
  }

  /** The percentile block: SEP, its header, then the `each_slice(3)` loop. */
  method PrintPercentiles(stats: Stats, ghost plan: seq<Result<string, Error>>, lines: seq<string>,
                          slices: seq<seq<int>>, ghost after: seq<Result<string, Error>>)
    returns (out: Output)
    requires plan == Lines(lines) + ([Ok(Sep), Ok(PercentilesHeader)] + (PercentileRows(stats, slices) + after))
    ensures out.raised.Some? ==> out == Execute(plan)
    ensures out.raised.None? ==> plan == Lines(out.lines) + after
  {
    ghost var todo := [Ok(Sep), Ok(PercentilesHeader)] + (PercentileRows(stats, slices) + after);
    out := Puts(plan, lines, todo, Ok(Sep));
    out := Puts(plan, out.lines, todo[1..], Ok(PercentilesHeader));
    assert todo[1..][1..] == PercentileRows(stats, slices) + after;
    out := PrintPercentileRows(stats, plan, out.lines, slices, after);
  }

  /** The threshold block: SEP, its header, then the `each_slice(2)` loop; it never raises. */
  method PrintThresholds(stats: Stats, ghost plan: seq<Result<string, Error>>, lines: seq<string>,
                         slices: seq<seq<int>>, ghost after: seq<Result<string, Error>>)
    returns (printed: seq<string>)
    requires plan == Lines(lines) + ([Ok(Sep), Ok(ThresholdsHeader)] + (ThresholdRows(stats, slices) + after))
    ensures plan == Lines(printed) + after
  {
    ghost var todo := [Ok(Sep), Ok(ThresholdsHeader)] + (ThresholdRows(stats, slices) + after);
    var out := Puts(plan, lines, todo, Ok(Sep));
    out := Puts(plan, out.lines, todo[1..], Ok(ThresholdsHeader));
    assert todo[1..][1..] == ThresholdRows(stats, slices) + after;
    printed := PrintThresholdRows(stats, plan, out.lines, slices, after);
  }

  /** The closing SEP and the bare `puts`. */
  method PrintFooter(ghost plan: seq<Result<string, Error>>, lines: seq<string>) returns (out: Output)
    requires plan == Lines(lines) + FooterSteps
    ensures out == Execute(plan)
  {
    out := Puts(plan, lines, FooterSteps, Ok(Sep));
    out := Puts(plan, out.lines, FooterSteps[1..], Ok(""));
    assert FooterSteps[1..][1..] == [];
    assert plan == Lines(out.lines) + [];
    ExecuteLines(out.lines);
    ExecuteAppend(Lines(out.lines), []);
  }

  /** The plan of `report`, grouped the way `Report` walks through it. */
  lemma PlanRegrouped(stats: Stats, description: string, sampleCount: nat,
                      percentileSlices: seq<seq<int>>, thresholdSlices: seq<seq<int>>)
    requires percentileSlices == EachSlice(PercentileRanks, 3) && thresholdSlices == EachSlice(ThresholdDays, 2)
    ensures ReportPlan(stats, description, sampleCount) == Lines(HeaderLines(description, sampleCount))
      + (SummarySteps(stats)
         + ([Ok(Sep), Ok(PercentilesHeader)] + (PercentileRows(stats, percentileSlices)
         + ([Ok(Sep), Ok(ThresholdsHeader)] + (ThresholdRows(stats, thresholdSlices) + FooterSteps)))))
  {
    var h := Lines(HeaderLines(description, sampleCount));
    var s := SummarySteps(stats);
    var p := PercentileRows(stats, percentileSlices);
    var t := ThresholdRows(stats, thresholdSlices);
    Regroup(h, s, [Ok(Sep), Ok(PercentilesHeader)], p, [Ok(Sep), Ok(ThresholdsHeader)], t, FooterSteps);
  }

  lemma Regroup<T>(h: seq<T>, s: seq<T>, a: seq<T>, p: seq<T>, b: seq<T>, t: seq<T>, f: seq<T>)
    ensures h + s + (a + p) + (b + t) + f == h + (s + (a + (p + (b + (t + f)))))
  {
  }

  /** The rows still to print, the next one split off. */
  lemma PercentileRowsNext(stats: Stats, slices: seq<seq<int>>, k: int, after: seq<Result<string, Error>>,
                           todo: seq<Result<string, Error>>)
    requires 0 <= k < |slices| && todo == PercentileRows(stats, slices[k..]) + after
    ensures todo != [] && todo[0] == PercentileRow(stats, slices[k])
    ensures todo[1..] == PercentileRows(stats, slices[k + 1..]) + after
  {
    MapSplit(ranks => PercentileRow(stats, ranks), slices, k);
  }

  lemma ThresholdTextsSplit(stats: Stats, slices: seq<seq<int>>, k: int)
    requires 0 <= k < |slices|
    ensures ThresholdTexts(stats, slices[k..]) == [ThresholdRow(stats, slices[k])] + ThresholdTexts(stats, slices[k + 1..])
  {
    MapSplit(days => ThresholdRow(stats, days), slices, k);
  }

  lemma ThresholdRowsNext(stats: Stats, slices: seq<seq<int>>, k: int, after: seq<Result<string, Error>>,
                          todo: seq<Result<string, Error>>, row: string)
    requires 0 <= k < |slices| && todo == ThresholdRows(stats, slices[k..]) + after
    requires row == ThresholdRow(stats, slices[k])
    ensures todo != [] && todo[0] == Ok(row) && todo[1..] == ThresholdRows(stats, slices[k + 1..]) + after
  {
    ThresholdTextsSplit(stats, slices, k);
    LinesSplit(row, ThresholdTexts(stats, slices[k + 1..]), after, todo);
  }

  /** The `each_slice(3)` loop of `report` over the given slices. */
  method PrintPercentileRows(stats: Stats, ghost plan: seq<Result<string, Error>>, lines: seq<string>,
                             slices: seq<seq<int>>, ghost after: seq<Result<string, Error>>)
    returns (out: Output)
    requires plan == Lines(lines) + (PercentileRows(stats, slices) + after)
    ensures out.raised.Some? ==> out == Execute(plan)
    ensures out.raised.None? ==> plan == Lines(out.lines) + after
  {
    out := Output(lines, None);
    var k := 0;
    while k < |slices|
      invariant 0 <= k <= |slices| && out.raised.None?
      invariant plan == Lines(out.lines) + (PercentileRows(stats, slices[k..]) + after)
    {
      var row := FormatPercentileRow(stats, slices[k]);
      ghost var todo := PercentileRows(stats, slices[k..]) + after;
      PercentileRowsNext(stats, slices, k, after, todo);
      out := Puts(plan, out.lines, todo, row);
      if out.raised.Some? {
        return;
      }
      k := k + 1;
    }
    assert slices[k..] == [];
  }

  /** Printing the next threshold row leaves the rows after it to print. */
  lemma ThresholdRowsAdvance(stats: Stats, plan: seq<Result<string, Error>>, printed: seq<string>,
                             slices: seq<seq<int>>, k: int, after: seq<Result<string, Error>>, row: string)
    requires 0 <= k < |slices| && plan == Lines(printed) + (ThresholdRows(stats, slices[k..]) + after)
    requires row == ThresholdRow(stats, slices[k])
    ensures plan == Lines(printed + [row]) + (ThresholdRows(stats, slices[k + 1..]) + after)
  {
    var todo := ThresholdRows(stats, slices[k..]) + after;
    ThresholdRowsNext(stats, slices, k, after, todo, row);
    Advance(plan, printed, todo, row);
  }

  /** The `each_slice(2)` loop of `report` over the given slices; it never raises. */
  method PrintThresholdRows(stats: Stats, ghost plan: seq<Result<string, Error>>, lines: seq<string>,
                            slices: seq<seq<int>>, ghost after: seq<Result<string, Error>>)
    returns (printed: seq<string>)
    requires plan == Lines(lines) + (ThresholdRows(stats, slices) + after)
    ensures plan == Lines(printed) + after
  {
    printed := lines;
    var k := 0;
    while k < |slices|
      invariant 0 <= k <= |slices|
      invariant plan == Lines(printed) + (ThresholdRows(stats, slices[k..]) + after)
    {
      var row := FormatThresholdRow(stats, slices[k]);
      ThresholdRowsAdvance(stats, plan, printed, slices, k, after, row);
      printed := printed + [row];
      k := k + 1;
    }
    assert slices[k..] == [];
  }
}
