/** The three charts as plain records: the labels along the axis and the list
    of datasets. Chart.js options (fonts, aspect ratios, grid colours, line
    widths) are not part of the record. */
module Charts {
  import opened Options
  import opened Payloads
  import opened SeriesKeys
  import opened Toggles

  /** The three colours every chart cycles through. */
  const Palette: seq<string> := ["#E63946", "#1D3557", "#457B9D"]

  /** One dataset: its legend label (the doughnut's has none), its data points
      and its colours (for a line, the one colour used for border and fill). */
  datatype Dataset = Dataset(legend: Option<string>, data: seq<Value>, colors: seq<string>)

  datatype Chart = Chart(labels: seq<Value>, datasets: seq<Dataset>)

  /** `chart1` as `initCharts` creates it: a bar chart over A, B, C at zero. */
  const InitialBarChart: Chart :=
    Chart([Text("A"), Text("B"), Text("C")],
          [Dataset(Some("Dataset 1"), [Num(0.0), Num(0.0), Num(0.0)], Palette)])

  /** `chart2` as `initCharts` creates it: a doughnut split into thirds. */
  const InitialDoughnutChart: Chart :=
    Chart([Text("Category 1"), Text("Category 2"), Text("Category 3")],
          [Dataset(None, [Num(33.3), Num(33.3), Num(33.3)], Palette)])

  /** `timeseries` as `initCharts` creates it: empty. */
  const InitialTimeseriesChart: Chart := Chart([], [])

  /** The guarded creation of `initCharts`: a chart exists only when its canvas
      yields a 2d context. */
  function CreateIf(hasCanvas: bool, initial: Chart): (c: Option<Chart>)
    ensures c.Some? <==> hasCanvas
    ensures c.Some? ==> c.value == initial
  {
    if hasCanvas then Some(initial) else None
  }

  /** `this.timeseriesData[key] || []`. */
  function Lookup(data: TimeseriesPayload, key: string): (r: seq<Value>)
    ensures key in data ==> r == data[key]
    ensures key !in data ==> r == []
  {
    if key in data then data[key] else []
  }

  /** `seriesKeys.map((key, idx) => ...)`: one dataset per key, at the key's
      position, labelled by `Label`, coloured by position modulo three and
      holding that key's series (or nothing when the payload lacks it). */
  function SeriesDatasets(data: TimeseriesPayload, keys: seq<string>): (ds: seq<Dataset>)
    ensures |ds| == |keys|
    ensures forall i {:trigger ds[i]} :: 0 <= i < |keys| ==>
      ds[i] == Dataset(Some(Label(keys[i])), Lookup(data, keys[i]), [Palette[i % |Palette|]])
  {
    if keys == [] then []
    else
      var n := |keys| - 1;
      var front := SeriesDatasets(data, keys[..n]);
      assert forall i :: 0 <= i < n ==> keys[..n][i] == keys[i];
      front + [Dataset(Some(Label(keys[n])), Lookup(data, keys[n]), [Palette[n % |Palette|]])]
  }

  /** Colour follows position, not the series: two datasets share a colour
      exactly when their positions agree modulo three. */
  lemma ColourIsPositional(data: TimeseriesPayload, keys: seq<string>, i: nat, j: nat)
    requires i < |keys| && j < |keys|
    ensures var ds := SeriesDatasets(data, keys); ds[i].colors == ds[j].colors <==> i % 3 == j % 3
  {
    var ds := SeriesDatasets(data, keys);
    if ds[i].colors == ds[j].colors {
      assert ds[i].colors[0] == ds[j].colors[0];
    }
  }

  /** `updateTimeSeriesChart` on the chart record: nothing happens without a
      chart or without cached data; otherwise the labels become `rounds` (or
      nothing) and the dataset list is replaced by one dataset per effective key. */
  function RenderTimeseries(chart: Option<Chart>, data: Option<TimeseriesPayload>, t: seq<Toggle>): (r: Option<Chart>)
    ensures chart.None? || data.None? ==> r == chart
    ensures chart.Some? && data.Some? ==> r.Some?
    ensures chart.Some? && data.Some? ==> r.value.labels == Lookup(data.value, "rounds")
    ensures chart.Some? && data.Some? ==> |r.value.datasets| == |EffectiveKeys(t)| > 0
  {
    if chart.None? || data.None? then chart
    else Some(Chart(Lookup(data.value, "rounds"), SeriesDatasets(data.value, EffectiveKeys(t))))
  }

  /** Datasets are fully replaced: what the chart showed before has no bearing
      on what it shows after. */
  lemma RenderTimeseriesReplaces(c1: Chart, c2: Chart, data: TimeseriesPayload, t: seq<Toggle>)
    ensures RenderTimeseries(Some(c1), Some(data), t) == RenderTimeseries(Some(c2), Some(data), t)
  {
  }

  /** Updating twice on the same state gives the same chart as updating once. */
  lemma RenderTimeseriesIdempotent(chart: Option<Chart>, data: Option<TimeseriesPayload>, t: seq<Toggle>)
    ensures RenderTimeseries(RenderTimeseries(chart, data, t), data, t) == RenderTimeseries(chart, data, t)
  {
  }

  /** With no button active the chart shows the three canonical series in
      the palette's order (`LabelExamples` gives the first legend,
      `Series 1`). */
  lemma RenderTimeseriesDefault(chart: Chart, data: TimeseriesPayload, t: seq<Toggle>)
    requires NoneActive(t)
    ensures var r := RenderTimeseries(Some(chart), Some(data), t).value;
      && |r.datasets| == |DefaultKeys| == 3
      && forall k :: 0 <= k < 3 ==>
        r.datasets[k] == Dataset(Some(Label(DefaultKeys[k])), Lookup(data, DefaultKeys[k]), [Palette[k]])
  {
    var keys := EffectiveKeys(t);
    assert keys == DefaultKeys;
    var ds := SeriesDatasets(data, keys);
    assert RenderTimeseries(Some(chart), Some(data), t).value.datasets == ds;
    forall k | 0 <= k < 3
      ensures ds[k] == Dataset(Some(Label(DefaultKeys[k])), Lookup(data, DefaultKeys[k]), [Palette[k]])
    {
      assert |Palette| == 3;
      assert k == 0 || k == 1 || k == 2;
    }
  }

  /** Dataset `j` of the updated chart plots the `j`-th active button in
      document order, with its key rewritten. */
  lemma RenderTimeseriesActive(chart: Chart, data: TimeseriesPayload, t: seq<Toggle>, j: nat)
    requires !NoneActive(t) && j < |ActivePositions(t)|
    ensures var key := RewriteKey(t[ActivePositions(t)[j]].series);
      RenderTimeseries(Some(chart), Some(data), t).value.datasets[j]
        == Dataset(Some(Label(key)), Lookup(data, key), [Palette[j % 3]])
  {
  }

  /** The overview update of one chart by `chart_data`: the labels and the
      first dataset's data are replaced; that dataset's legend and colours and
      every other dataset are kept. */
  function WithChartData(c: Chart, cd: ChartData): (r: Chart)
    requires |c.datasets| >= 1
    ensures r.labels == cd.labels
    ensures |r.datasets| == |c.datasets|
    ensures r.datasets[0].data == cd.values
    ensures r.datasets[0].legend == c.datasets[0].legend && r.datasets[0].colors == c.datasets[0].colors
    ensures forall j :: 1 <= j < |c.datasets| ==> r.datasets[j] == c.datasets[j]
  {
    Chart(cd.labels, [c.datasets[0].(data := cd.values)] + c.datasets[1..])
  }

  /** `if (data.chart_data) { if (this.charts.chartN) { ... } }` for one chart. */
  function RenderOverviewChart(c: Option<Chart>, cd: Option<ChartData>): (r: Option<Chart>)
    requires c.Some? ==> |c.value.datasets| >= 1
    ensures r.Some? == c.Some?
    ensures r.Some? ==> |r.value.datasets| == |c.value.datasets|
    ensures cd.None? ==> r == c
    ensures c.Some? && cd.Some? ==>
      && r.value.labels == cd.value.labels
      && r.value.datasets[0].data == cd.value.values
      && r.value.datasets[0].legend == c.value.datasets[0].legend
      && r.value.datasets[0].colors == c.value.datasets[0].colors
      && forall j :: 1 <= j < |c.value.datasets| ==> r.value.datasets[j] == c.value.datasets[j]
  {
    if cd.Some? && c.Some? then Some(WithChartData(c.value, cd.value)) else c
  }

  /** Loading the same overview payload twice leaves the chart as loading it once. */
  lemma RenderOverviewChartIdempotent(c: Option<Chart>, cd: Option<ChartData>)
    requires c.Some? ==> |c.value.datasets| >= 1
    ensures RenderOverviewChart(RenderOverviewChart(c, cd), cd) == RenderOverviewChart(c, cd)
  {
  }
}
