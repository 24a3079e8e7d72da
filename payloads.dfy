/** The JSON payloads the dashboard fetches from `/api/overview`,
    `/api/timeseries` and `/api/details`, as values, and the outcome of one
    fetch-and-parse. */
module Payloads {
  import opened Options

  /** A JSON scalar as it reaches a chart, a metric slot or a table cell. */
  datatype Value = Num(n: real) | Text(s: string)

  /** One entry of `metrics`, in the order `Object.keys` lists it. */
  datatype Metric = Metric(name: string, value: Value)

  /** `chart_data`: the category labels and the values of the overview charts. */
  datatype ChartData = ChartData(labels: seq<Value>, values: seq<Value>)

  /** The overview payload; an absent `metrics` object is the empty sequence. */
  datatype OverviewPayload = OverviewPayload(metrics: seq<Metric>, chartData: Option<ChartData>)

  /** The timeseries payload: every array-valued member by name, `rounds`
      included (the dashboard reads `rounds` and the series from the same object). */
  type TimeseriesPayload = map<string, seq<Value>>

  /** One row of the details payload; `metric` is present only when it is a number. */
  datatype Item = Item(name: Value, value: Value, metric: Option<real>)

  /** The details payload; `items` may be missing. */
  datatype DetailsPayload = DetailsPayload(items: Option<seq<Item>>)

  /** What one `fetch` followed by `response.json()` delivers. */
  datatype Outcome<+T> = Loaded(payload: T) | Failed
}
