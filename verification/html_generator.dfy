/** The chart data of html_generator.rs: for each metric a point series over all
    records (missing values replaced by the configured default), an optional two-point
    "expected" line, and the median, average and standard deviation of the values that
    are actually present. The HTML template substitution and serialisation are not
    modelled. */
module HtmlGenerator {
  import opened Results
  import opened Calendar
  import opened JsonParser
  import opened Statistics

  /** `ExpectedConfig<T>` of chart_config.rs: a horizontal reference line. `caption` is
      the source's `label`, a reserved word here. */
  datatype ExpectedConfig<N> = ExpectedConfig(caption: string, fill: bool, borderColor: string, value: N)

  /** `ChartConfig<T>` of chart_config.rs. */
  datatype ChartConfig<N> = ChartConfig(
    id: string,
    caption: string,
    fill: bool,
    borderColor: string,
    defaultValue: N,
    expectedValue: Option<ExpectedConfig<N>>)

  datatype Point<N> = Point(x: string, y: N)

  datatype Dataset<N> = Dataset(caption: string, data: seq<Point<N>>, fill: bool, borderColor: string)

  datatype Chart<N> = Chart(datasets: seq<Dataset<N>>, median: real, average: real, standardDeviation: SquareRoot)

  /* Point series */

  /** One point per record, in record order: x is the record's timestamp in
      DATE_TIME_FORMAT and y what `y` reads from the record. */
  function Series<N>(data: seq<ParsedEntry>, y: ParsedEntry --> N): (r: seq<Point<N>>)
    requires forall i :: 0 <= i < |data| ==> y.requires(data[i])
    ensures |r| == |data|
    ensures forall i :: 0 <= i < |data| ==> r[i] == Point(FormatDateTime(data[i].timestamp), y(data[i]))
  {
    if |data| == 0 then []
    else [Point(FormatDateTime(data[0].timestamp), y(data[0]))] + Series(data[1..], y)
  }

  /** The x value of every point reads back, with the same format, as the timestamp of
      the record it was made from. */
  lemma SeriesTimestamps<N>(data: seq<ParsedEntry>, y: ParsedEntry --> N, i: nat)
    requires forall k :: 0 <= k < |data| ==> y.requires(data[k])
    requires i < |data|
    ensures ParseDateTime(Series(data, y)[i].x) == Some(data[i].timestamp)
  {
    FormatThenParseDateTime(data[i].timestamp);
  }

  /** The latency point: the measured latency, or the default when the record has no
      performance section. */
  function LatencyOr(e: ParsedEntry, default: U32): U32 {
    if e.performance.Some? then e.performance.value.latency else default
  }

  /** The jitter, download and upload points read the performance section without
      checking that it is there: the source panics on a record without one. */
  function JitterOr(e: ParsedEntry, default: U32): U32
    requires e.performance.Some?
  {
    e.performance.value.jitter.GetOr(default)
  }

  function DownloadOr(e: ParsedEntry, default: real): real
    requires e.performance.Some?
  {
    e.performance.value.download.GetOr(default)
  }

  function UploadOr(e: ParsedEntry, default: real): real
    requires e.performance.Some?
  {
    e.performance.value.upload.GetOr(default)
  }

  /* Present values */

  function LatencyOf(e: ParsedEntry): Option<real> {
    if e.performance.Some? then Some(e.performance.value.latency as real) else None
  }

  function JitterOf(e: ParsedEntry): Option<real> {
    if e.performance.Some? && e.performance.value.jitter.Some?
    then Some(e.performance.value.jitter.value as real)
    else None
  }

  function DownloadOf(e: ParsedEntry): Option<real> {
    if e.performance.Some? then e.performance.value.download else None
  }

  function UploadOf(e: ParsedEntry): Option<real> {
    if e.performance.Some? then e.performance.value.upload else None
  }

  /** The values the metric has on the records where it is present, in record order;
      nothing is substituted for the records where it is absent. */
  function Values(data: seq<ParsedEntry>, metric: ParsedEntry -> Option<real>): (r: seq<real>)
    ensures |r| <= |data|
    ensures |r| > 0 <==> exists i :: 0 <= i < |data| && metric(data[i]).Some?
  {
    if |data| == 0 then []
    else
      var rest := Values(data[1..], metric);
      assert (exists i :: 0 <= i < |data| && metric(data[i]).Some?) <==>
        metric(data[0]).Some? || exists i :: 0 <= i < |data[1..]| && metric(data[1..][i]).Some? by {
        if exists i :: 0 <= i < |data| && metric(data[i]).Some? {
          var i :| 0 <= i < |data| && metric(data[i]).Some?;
          if i > 0 {
            assert data[1..][i - 1] == data[i];
          }
        }
      }
      match metric(data[0])
      case Some(v) => [v] + rest
      case None => rest
  }

  /** The value list of a concatenation is the concatenation of the value lists: each
      record contributes on its own, in place. */
  lemma {:induction false} ValuesAppend(a: seq<ParsedEntry>, b: seq<ParsedEntry>, metric: ParsedEntry -> Option<real>)
    ensures Values(a + b, metric) == Values(a, metric) + Values(b, metric)
    decreases |a|
  {
    if |a| == 0 {
      assert a + b == b;
    } else {
      assert (a + b)[1..] == a[1..] + b;
      ValuesAppend(a[1..], b, metric);
    }
  }

  /** Every value in the list is the value of a record where the metric is present. */
  lemma {:induction false} ValuesArePresent(data: seq<ParsedEntry>, metric: ParsedEntry -> Option<real>, k: nat)
    requires k < |Values(data, metric)|
    ensures exists i :: 0 <= i < |data| && metric(data[i]) == Some(Values(data, metric)[k])
    decreases |data|
  {
    var tail := data[1..];
    if metric(data[0]).Some? && k == 0 {
      assert metric(data[0]) == Some(Values(data, metric)[0]);
    } else {
      var k' := if metric(data[0]).Some? then k - 1 else k;
      assert Values(data, metric)[k] == Values(tail, metric)[k'];
      ValuesArePresent(tail, metric, k');
      var i :| 0 <= i < |tail| && metric(tail[i]) == Some(Values(tail, metric)[k']);
      assert data[i + 1] == tail[i];
    }
  }

  /** When the metric is present on every record, the list holds exactly one value per
      record, in record order. */
  lemma {:induction false} ValuesWhenAllPresent(data: seq<ParsedEntry>, metric: ParsedEntry -> Option<real>)
    requires forall i :: 0 <= i < |data| ==> metric(data[i]).Some?
    ensures |Values(data, metric)| == |data|
    ensures forall i :: 0 <= i < |data| ==> Some(Values(data, metric)[i]) == metric(data[i])
    decreases |data|
  {
    if |data| > 0 {
      var tail := data[1..];
      assert forall i :: 0 <= i < |tail| ==> tail[i] == data[i + 1];
      ValuesWhenAllPresent(tail, metric);
    }
  }

  /** A record on which the metric is absent can be removed without changing the value
      list: its default never reaches the statistics. */
  lemma AbsentRecordIgnored(data: seq<ParsedEntry>, metric: ParsedEntry -> Option<real>, i: nat)
    requires i < |data| && metric(data[i]).None?
    ensures Values(data, metric) == Values(data[..i] + data[i + 1..], metric)
  {
    assert data == data[..i] + ([data[i]] + data[i + 1..]);
    ValuesAppend(data[..i], [data[i]] + data[i + 1..], metric);
    ValuesAppend([data[i]], data[i + 1..], metric);
    ValuesAppend(data[..i], data[i + 1..], metric);
    assert Values([data[i]], metric) == [] by {
      assert [data[i]][1..] == [];
    }
  }

  /* Datasets */

  /** `create_dataset`: the measured series under the chart's label and colours. */
  function CreateDataset<N>(config: ChartConfig<N>, points: seq<Point<N>>): (r: Dataset<N>)
    ensures r.data == points
    ensures r.caption == config.caption && r.fill == config.fill && r.borderColor == config.borderColor
  {
    Dataset(config.caption, points, config.fill, config.borderColor)
  }

  /** `create_dataset_expected`: a line at the expected value from the first to the last
      point of the series; with no points both ends have the empty x. */
  function CreateDatasetExpected<N>(config: ExpectedConfig<N>, points: seq<Point<N>>): (r: Dataset<N>)
    ensures |r.data| == 2
    ensures r.data[0].y == config.value && r.data[1].y == config.value
    ensures |points| > 0 ==> r.data[0].x == points[0].x && r.data[1].x == points[|points| - 1].x
    ensures |points| == 0 ==> r.data[0].x == "" && r.data[1].x == ""
    ensures r.caption == config.caption && r.fill == config.fill && r.borderColor == config.borderColor
  {
    var firstX := if |points| > 0 then points[0].x else "";
    var lastX := if |points| > 0 then points[|points| - 1].x else "";
    Dataset(config.caption, [Point(firstX, config.value), Point(lastX, config.value)], config.fill, config.borderColor)
  }

  /** `create_datasets`: the measured series first, then the expected line if one is
      configured. */
  function CreateDatasets<N>(config: ChartConfig<N>, points: seq<Point<N>>): (r: seq<Dataset<N>>)
    ensures |r| == (if config.expectedValue.Some? then 2 else 1)
    ensures r[0] == CreateDataset(config, points)
    ensures config.expectedValue.Some? ==> r[1] == CreateDatasetExpected(config.expectedValue.value, points)
  {
    var measured := CreateDataset(config, points);
    match config.expectedValue
    case None => [measured]
    case Some(expected) => [measured, CreateDatasetExpected(expected, points)]
  }

  /* Charts */

  /** `create_chart`: median of the values (which sorts them), then average and standard
      deviation of the sorted values. Sorting changes neither, so they are those of the
      values as given. An empty value list makes `median` panic, so it is excluded. */
  function CreateChart<N>(datasets: seq<Dataset<N>>, values: seq<real>): (r: Chart<N>)
    requires |values| > 0
    ensures r.datasets == datasets
    ensures IsUpperMedian(values, r.median)
    ensures r.average == Average(values)
    ensures r.standardDeviation == StandardDeviation(values, r.average)
  {
    var (sorted, median) := Median(values);
    var average := Average(sorted);
    PermutationKeepsTotals(values, sorted, median);
    PermutationKeepsDeviations(values, sorted, average);
    Chart(datasets, median, average, StandardDeviation(sorted, average))
  }

  /** The chart of one metric: the point series read by `y` and the statistics of the
      values `metric` finds. */
  function MetricChart<N>(data: seq<ParsedEntry>, config: ChartConfig<N>, y: ParsedEntry --> N,
                          metric: ParsedEntry -> Option<real>): (r: Chart<N>)
    requires forall i :: 0 <= i < |data| ==> y.requires(data[i])
    requires exists i :: 0 <= i < |data| && metric(data[i]).Some?
    ensures r.datasets == CreateDatasets(config, Series(data, y))
    ensures IsUpperMedian(Values(data, metric), r.median)
    ensures r.average == Average(Values(data, metric))
    ensures r.standardDeviation == StandardDeviation(Values(data, metric), r.average)
  {
    CreateChart(CreateDatasets(config, Series(data, y)), Values(data, metric))
  }

  /** `create_latency_chart`. Needs one record with a performance section, or the value
      list is empty. */
  function LatencyChart(data: seq<ParsedEntry>, config: ChartConfig<U32>): (r: Chart<U32>)
    requires exists i :: 0 <= i < |data| && LatencyOf(data[i]).Some?
    ensures |r.datasets| == (if config.expectedValue.Some? then 2 else 1)
    ensures |r.datasets[0].data| == |data|
    ensures config.expectedValue.Some? ==>
      r.datasets[1] == CreateDatasetExpected(config.expectedValue.value, r.datasets[0].data)
    ensures forall i :: 0 <= i < |data| ==>
      r.datasets[0].data[i] == Point(FormatDateTime(data[i].timestamp), LatencyOr(data[i], config.defaultValue))
    ensures IsUpperMedian(Values(data, LatencyOf), r.median)
    ensures r.average == Average(Values(data, LatencyOf))
    ensures r.standardDeviation == StandardDeviation(Values(data, LatencyOf), r.average)
  {
    MetricChart(data, config, e => LatencyOr(e, config.defaultValue), LatencyOf)
  }

  /** `create_jitter_chart`. Every record must have a performance section (the source
      unwraps it) and one must carry a jitter. */
  function JitterChart(data: seq<ParsedEntry>, config: ChartConfig<U32>): (r: Chart<U32>)
    requires forall i :: 0 <= i < |data| ==> data[i].performance.Some?
    requires exists i :: 0 <= i < |data| && JitterOf(data[i]).Some?
    ensures |r.datasets| == (if config.expectedValue.Some? then 2 else 1)
    ensures |r.datasets[0].data| == |data|
    ensures config.expectedValue.Some? ==>
      r.datasets[1] == CreateDatasetExpected(config.expectedValue.value, r.datasets[0].data)
    ensures forall i :: 0 <= i < |data| ==>
      r.datasets[0].data[i] == Point(FormatDateTime(data[i].timestamp), JitterOr(data[i], config.defaultValue))
    ensures IsUpperMedian(Values(data, JitterOf), r.median)
    ensures r.average == Average(Values(data, JitterOf))
    ensures r.standardDeviation == StandardDeviation(Values(data, JitterOf), r.average)
  {
    MetricChart(data, config, (e: ParsedEntry) requires e.performance.Some? => JitterOr(e, config.defaultValue), JitterOf)
  }

  /** `create_download_chart`, under the same conditions as the jitter chart. */
  function DownloadChart(data: seq<ParsedEntry>, config: ChartConfig<real>): (r: Chart<real>)
    requires forall i :: 0 <= i < |data| ==> data[i].performance.Some?
    requires exists i :: 0 <= i < |data| && DownloadOf(data[i]).Some?
    ensures |r.datasets| == (if config.expectedValue.Some? then 2 else 1)
    ensures |r.datasets[0].data| == |data|
    ensures config.expectedValue.Some? ==>
      r.datasets[1] == CreateDatasetExpected(config.expectedValue.value, r.datasets[0].data)
    ensures forall i :: 0 <= i < |data| ==>
      r.datasets[0].data[i] == Point(FormatDateTime(data[i].timestamp), DownloadOr(data[i], config.defaultValue))
    ensures IsUpperMedian(Values(data, DownloadOf), r.median)
    ensures r.average == Average(Values(data, DownloadOf))
    ensures r.standardDeviation == StandardDeviation(Values(data, DownloadOf), r.average)
  {
    MetricChart(data, config, (e: ParsedEntry) requires e.performance.Some? => DownloadOr(e, config.defaultValue), DownloadOf)
  }

  /** `create_upload_chart`, under the same conditions as the jitter chart. */
  function UploadChart(data: seq<ParsedEntry>, config: ChartConfig<real>): (r: Chart<real>)
    requires forall i :: 0 <= i < |data| ==> data[i].performance.Some?
    requires exists i :: 0 <= i < |data| && UploadOf(data[i]).Some?
    ensures |r.datasets| == (if config.expectedValue.Some? then 2 else 1)
    ensures |r.datasets[0].data| == |data|
    ensures config.expectedValue.Some? ==>
      r.datasets[1] == CreateDatasetExpected(config.expectedValue.value, r.datasets[0].data)
    ensures forall i :: 0 <= i < |data| ==>
      r.datasets[0].data[i] == Point(FormatDateTime(data[i].timestamp), UploadOr(data[i], config.defaultValue))
    ensures IsUpperMedian(Values(data, UploadOf), r.median)
    ensures r.average == Average(Values(data, UploadOf))
    ensures r.standardDeviation == StandardDeviation(Values(data, UploadOf), r.average)
  {
    MetricChart(data, config, (e: ParsedEntry) requires e.performance.Some? => UploadOr(e, config.defaultValue), UploadOf)
  }

  /** When every record has a download value, the statistics are taken over exactly the
      plotted points: the i-th value is the y of the i-th point. */
  lemma DownloadStatisticsMatchPlot(data: seq<ParsedEntry>, config: ChartConfig<real>)
    requires |data| > 0 && DownloadOf(data[0]).Some?
    requires forall i :: 0 <= i < |data| ==> DownloadOf(data[i]).Some?
    ensures |Values(data, DownloadOf)| == |DownloadChart(data, config).datasets[0].data|
    ensures forall i :: 0 <= i < |data| ==>
      Values(data, DownloadOf)[i] == DownloadChart(data, config).datasets[0].data[i].y
  {
    var chart := DownloadChart(data, config);
    ValuesWhenAllPresent(data, DownloadOf);
    forall i | 0 <= i < |data|
      ensures Values(data, DownloadOf)[i] == chart.datasets[0].data[i].y
    {
      assert chart.datasets[0].data[i].y == DownloadOr(data[i], config.defaultValue);
      assert Some(Values(data, DownloadOf)[i]) == data[i].performance.value.download;
    }
  }

  /** The expected line of a chart runs from the first record's timestamp to the last
      record's, at the configured value. */
  lemma ExpectedLineSpansRecords<N>(data: seq<ParsedEntry>, config: ChartConfig<N>, y: ParsedEntry --> N)
    requires forall i :: 0 <= i < |data| ==> y.requires(data[i])
    requires |data| > 0 && config.expectedValue.Some?
    ensures |CreateDatasets(config, Series(data, y))| == 2
    ensures CreateDatasets(config, Series(data, y))[1].data
         == [Point(FormatDateTime(data[0].timestamp), config.expectedValue.value.value),
             Point(FormatDateTime(data[|data| - 1].timestamp), config.expectedValue.value.value)]
  {
    var points := Series(data, y);
    assert points[0].x == FormatDateTime(data[0].timestamp);
    assert points[|points| - 1].x == FormatDateTime(data[|data| - 1].timestamp);
  }
}
