# SimpleDashboard, modelled in Dafny

This project models the client-side controller `SimpleDashboard` of the template
dashboard (`dashboard/static/js/dashboard.js`). The controller does the following:
- it wires tab navigation;
- it creates three Chart.js charts when their canvases exist;
- it binds the refresh button and the analytics toggle buttons;
- it loads three JSON endpoints and renders the metric cards, the overview
  charts, the timeseries chart and the details table;
- it shows an error toast that removes itself after a delay.

The DOM and Chart.js become plain state:
- a nav item is a `data-view` attribute plus an `active` flag;
- a view container is an id plus a `hidden` flag;
- a toggle button is a `data-series` attribute plus an `active` flag;
- a chart is its labels plus its datasets;
- the metric cards are a map from slot number to value;
- the details table body is a sequence of row records;
- the message container is a sequence of toasts, each with its own identity.

Modules:

- `Options`, `Payloads`: the option type, and the three payloads as values.
  Each fetch-and-parse delivers an `Outcome`: a payload or a failure.
- `SeriesKeys`: the key rewrite `replace(/(\d)/, '_$1')` and the legend label
  `replace(/_/g, ' ').replace(/\b\w/g, upper)`, character by character.
- `Toggles`: the toggle flip and the effective series keys. These are the
  active buttons in document order, rewritten, or the three default keys.
- `Charts`: the initial charts, the guarded creation, the dataset
  construction, and the two chart updates (timeseries and overview).
- `Fixed`: `toFixed(2)` on exact reals.
- `Details`: the rows of the details table.
- `Metrics`: the positional write of the metric cards.
- `Navigation`: the nav items, the views and the title table.
- `Toasts`: the toast container and the guarded removal.
- `Dashboard`: the class `SimpleDashboard`. Its fields are the page state
  the JavaScript object reads and writes, and its methods are the event
  handlers and load steps. Each method states its new state through the
  functions of the modules above, and the properties are lemmas about those
  functions.

Three one-line definitions serve the contracts above rather than standing on
their own:
- `Navigation.ViewName` is the text `getAttribute('data-view')` yields, with a missing
  attribute as `null`;
- `Charts.Lookup` is `timeseriesData[key] || []`;
- `Charts.CreateIf` is the `?.getContext('2d')` guard on chart creation.
`ClickNav`, `SeriesDatasets`, `RenderTimeseries` and the constructor use them.

How the environment is represented:
- **Fetches:** each of the three fetches is an `Outcome` parameter of `LoadData`.
- **The timer:** the `setTimeout` removal is the explicit method `ExpireToast`,
  called with the id that `ShowError` returns.
- **The page:** the constructor takes a `Page` value. It describes the elements
  the code looks up and whether each canvas yields a 2d context.

## Model

| member | source | states |
|---|---|---|
| Navigation.TitleFor | dashboard/static/js/dashboard.js:41-47 | A view in the title table gets that table's title; the title is `Dashboard` exactly when the view is not in the table. |
| Navigation.TitleExamples | dashboard/static/js/dashboard.js:41-47 | `overview` gives `Dashboard Overview`, `data` gives `Data View`, an unknown view gives `Dashboard`. |
| Navigation.Selected | dashboard/static/js/dashboard.js:33-34 | After a click on item `i`, exactly item `i` is active (by position and by count), and every item keeps its `data-view`. |
| Navigation.SelectedIdempotent | dashboard/static/js/dashboard.js:33-34 | Clicking the active item again changes nothing. |
| Navigation.FirstWithId | dashboard/static/js/dashboard.js:38 | The lookup finds the first container with the id; no earlier container has it; `|views|` means none matches. |
| Navigation.FirstWithIdSameIds | dashboard/static/js/dashboard.js:37-38 | The lookup depends on the ids only, so hiding every view first does not change which container is found. |
| Navigation.Shown | dashboard/static/js/dashboard.js:37-38 | Every container is hidden except the first container with the clicked id. Ids are kept. When a container matches, exactly one view is visible; otherwise none is. |
| Navigation.ShownViewHasId | dashboard/static/js/dashboard.js:37-38 | The only visible view carries the clicked id and is the first that does. |
| Navigation.ShownIdempotent | dashboard/static/js/dashboard.js:37-38 | Selecting the same view twice leaves the views as selecting it once. |
| Dashboard.SimpleDashboard.SelectNavItem | dashboard/static/js/dashboard.js:33-34 | The two `forEach` steps on the nav items leave them as `Selected` of the old items. |
| Dashboard.SimpleDashboard.ShowView | dashboard/static/js/dashboard.js:37-38 | The hide loop and the un-hide leave the views as `Shown` of the old views; `found` says whether the element exists. |
| Dashboard.SimpleDashboard.ClickNav | dashboard/static/js/dashboard.js:28-48 | The click handler: nav items as `Selected`, views as `Shown` of `<view>-view`. The title becomes `TitleFor(view)` only when the view element and `.page-title` exist; a missing view element stops the handler after the views are hidden. |
| SeriesKeys.FirstDigit | dashboard/static/js/dashboard.js:212 | The position of the first `\d` match: no earlier character is a digit, and the character there is one. |
| SeriesKeys.RewriteKey | dashboard/static/js/dashboard.js:212 | The rewrite adds at most one character; `SeriesKeys.RewriteKeyShape` states exactly where. |
| SeriesKeys.RewriteKeyShape | dashboard/static/js/dashboard.js:212 | The rewrite inserts `_` in front of the first digit only, and leaves a digit-free attribute unchanged. |
| SeriesKeys.RewriteKeyUndo | dashboard/static/js/dashboard.js:212 | The rewrite adds exactly one character, an underscore directly before the first digit; removing it gives the attribute back. |
| SeriesKeys.RewriteKeyNotIdempotent | dashboard/static/js/dashboard.js:212 | Rewriting an already rewritten key changes it again: the rewrite adds an underscore every time. |
| SeriesKeys.RewriteKeyExample | dashboard/static/js/dashboard.js:212 | `series1` becomes `series_1`. |
| SeriesKeys.RewriteKeyExampleTwice | dashboard/static/js/dashboard.js:212 | `series_1` becomes `series__1`. |
| SeriesKeys.Upper | dashboard/static/js/dashboard.js:217 | `toUpperCase` on a `\w` character turns each of `a`-`z` into the capital at the same place in `A`-`Z`, leaves every other character alone, and keeps it a word character. |
| SeriesKeys.Spaced | dashboard/static/js/dashboard.js:217 | `replace(/_/g, ' ')`: every underscore becomes a space, and every other character is kept. |
| SeriesKeys.CapitalizeAfter | dashboard/static/js/dashboard.js:217 | `replace(/\b\w/g, upper)`: a word character at a word boundary is upper-cased, and every other character is kept. |
| SeriesKeys.Label | dashboard/static/js/dashboard.js:217 | The label has the key's length; `SeriesKeys.LabelShape` states it character by character. |
| SeriesKeys.LabelShape | dashboard/static/js/dashboard.js:217 | The label keeps the key's length. Each underscore becomes a space, each letter or digit that starts a word is upper-cased, and nothing else changes. |
| SeriesKeys.LabelHasNoUnderscore | dashboard/static/js/dashboard.js:217 | A label contains no underscore. |
| SeriesKeys.LabelIdempotent | dashboard/static/js/dashboard.js:217 | Labelling a label changes nothing. |
| SeriesKeys.LabelOfSeriesKey | dashboard/static/js/dashboard.js:213-217 | A key `series_<digit>` is labelled `Series <digit>`. |
| SeriesKeys.LabelExamples | dashboard/static/js/dashboard.js:213-217 | `series_1` is labelled `Series 1`. |
| Toggles.Flip | dashboard/static/js/dashboard.js:151 | `classList.toggle('active')` flips the clicked button's flag, keeps its attribute, and leaves every other button unchanged. |
| Toggles.FlipTwice | dashboard/static/js/dashboard.js:151 | Two clicks on the same button restore every button. |
| Toggles.FlipsCommute | dashboard/static/js/dashboard.js:151 | Clicks on two buttons commute. |
| Toggles.ActivePositions | dashboard/static/js/dashboard.js:210 | The positions of `.toggle-btn.active`: strictly increasing (document order), all active, and every active button listed. |
| Toggles.ActiveSeries | dashboard/static/js/dashboard.js:210-212 | At most one attribute per button; `Toggles.ActiveSeriesInDocumentOrder` states that they are the active buttons' attributes in document order. |
| Toggles.ActiveSeriesInDocumentOrder | dashboard/static/js/dashboard.js:210-212 | The filtered attributes are exactly those of the active positions, in document order. |
| Toggles.NoActivePositions | dashboard/static/js/dashboard.js:210-211 | No position is listed exactly when no button is active. |
| Toggles.EffectiveKeys | dashboard/static/js/dashboard.js:210-213 | The keys are never empty. With no active button they are `series_1, series_2, series_3`. Otherwise there is one per active button, in document order, each rewritten. |
| Toggles.SoleActiveButton | dashboard/static/js/dashboard.js:210-212 | Activating one button when none was active plots that series alone. |
| Toggles.LastButtonOff | dashboard/static/js/dashboard.js:210-213 | Deactivating the only active button falls back to the three default keys. |
| Charts.SeriesDatasets | dashboard/static/js/dashboard.js:215-227 | There is one dataset per key. Dataset `i` has legend `Label(key_i)`, the payload's series `key_i` (or nothing when the key is absent), and colour `palette[i % 3]`. |
| Charts.ColourIsPositional | dashboard/static/js/dashboard.js:221-222 | Two datasets share a colour exactly when their positions agree modulo three. |
| Charts.RenderTimeseries | dashboard/static/js/dashboard.js:207-232 | A no-op without a chart or without cached data. Otherwise the labels become `rounds` (or nothing), and there is one dataset per effective key. |
| Charts.RenderTimeseriesReplaces | dashboard/static/js/dashboard.js:229-230 | The datasets are fully replaced: the result does not depend on what the chart showed before. |
| Charts.RenderTimeseriesIdempotent | dashboard/static/js/dashboard.js:207-232 | Updating twice on the same state gives the chart that updating once gives. |
| Charts.RenderTimeseriesDefault | dashboard/static/js/dashboard.js:211-227 | With no active button there are three datasets. Dataset `k` is the default key `k`, labelled, with palette colour `k`. |
| Charts.RenderTimeseriesActive | dashboard/static/js/dashboard.js:210-227 | With active buttons, dataset `j` plots the `j`-th active button's rewritten key, labelled, with colour `palette[j % 3]`. |
| Charts.WithChartData | dashboard/static/js/dashboard.js:186-187 | The labels and the first dataset's data are replaced. That dataset's legend and colours, and every other dataset, are kept. |
| Charts.RenderOverviewChart | dashboard/static/js/dashboard.js:184-195 | A missing chart stays missing, and without `chart_data` the chart is unchanged. With both a chart and `chart_data`, the labels become `chart_data.labels` and the first dataset's data becomes `chart_data.values`. That dataset keeps its legend and colours, and every other dataset is kept. |
| Charts.RenderOverviewChartIdempotent | dashboard/static/js/dashboard.js:184-195 | Loading the same overview payload twice gives the chart that loading it once gives. |
| Metrics.WriteMetrics | dashboard/static/js/dashboard.js:177-181 | The `k`-th metric value lands in slot `k` (from 1) when that slot exists. Missing slots are skipped, no slot is created, and the other slots keep their values. |
| Metrics.WriteMetricsIgnoresNames | dashboard/static/js/dashboard.js:178-180 | Placement depends on position only, never on the metric's name. |
| Metrics.WriteMetricsExample | dashboard/static/js/dashboard.js:177-181 | `{Total: 10, Active: 3}` puts 10 in slot 1 and 3 in slot 2. |
| Fixed.DecimalRoundTrip | dashboard/static/js/dashboard.js:246 | Reading the printed digits of a whole number back gives the number. The digits (`Fixed.Decimal`) have no leading zero. |
| Fixed.RoundedHundredths | dashboard/static/js/dashboard.js:246 | The rounded count of hundredths is within half a hundredth of the number, and a tie rounds up. |
| Fixed.ToFixed2 | dashboard/static/js/dashboard.js:246 | The output is an optional `-`, then digits, a point and exactly two digits. The `-` appears exactly when the number is negative, so a small negative number prints as `-0.00`. |
| Fixed.UnsignedFixed2 | dashboard/static/js/dashboard.js:246 | The output is digits, a point and exactly two digits; `Fixed.UnsignedFixed2Value` states the value it prints. |
| Fixed.UnsignedFixed2Value | dashboard/static/js/dashboard.js:246 | For a non-negative number, the printed hundredths are the rounded hundredths. |
| Fixed.ToFixed2Value | dashboard/static/js/dashboard.js:246 | The printed value is the magnitude rounded to hundredths with its sign restored, and never more than half a hundredth from the number. |
| Fixed.ToFixed2Examples | dashboard/static/js/dashboard.js:246 | `3.14159` prints `3.14`, `0.85` prints `0.85`, `-0.001` prints `-0.00`. |
| Details.MetricCell | dashboard/static/js/dashboard.js:246 | The cell is `N/A` exactly when the metric is absent; otherwise it is the metric's `toFixed(2)`. |
| Details.ItemRows | dashboard/static/js/dashboard.js:242-248 | There is one row per item, in payload order, holding its name, its value and its formatted metric. |
| Details.DetailRows | dashboard/static/js/dashboard.js:241-251 | Absent or empty items give exactly the single placeholder row, and only then does a placeholder appear. Otherwise the rows are the item rows. |
| Details.DetailRowsExamples | dashboard/static/js/dashboard.js:241-251 | One item with metric 3.14159 gives one row reading `3.14`; one item without a metric reads `N/A`; no items gives the placeholder. |
| Toasts.RemoveToast | dashboard/static/js/dashboard.js:264-268 | After the removal no toast with that id is left, and the container never grows. |
| Toasts.RemoveToastAppend | dashboard/static/js/dashboard.js:264-268 | The removal works element by element: removing from a concatenation removes from each part. |
| Toasts.RemoveAbsentToast | dashboard/static/js/dashboard.js:265 | Removing a toast that is already gone changes nothing (the `parentNode` guard). |
| Toasts.RemoveToastTwice | dashboard/static/js/dashboard.js:264-268 | Expiring the same toast twice equals expiring it once. |
| Toasts.ShowThenExpire | dashboard/static/js/dashboard.js:259-268 | Appending a new toast and expiring it gives the container back exactly. |
| Toasts.RemovePresentToast | dashboard/static/js/dashboard.js:264-267 | With unique ids, expiring the toast at position `k` removes that toast only and keeps the others in order. |
| Toasts.RemoveToastFrom | dashboard/static/js/dashboard.js:264-267 | Every toast left after a removal was in the container before. |
| Toasts.RemoveToastUnique | dashboard/static/js/dashboard.js:264-267 | A removal keeps the toast ids unique. |
| Toasts.RemoveToastKeepsIds | dashboard/static/js/dashboard.js:259-267 | A removal keeps the ids unique and below the next fresh id, and every id left was there before. |
| Dashboard.SimpleDashboard.constructor | dashboard/static/js/dashboard.js:53-137 | Nothing is cached; each chart exists exactly when its canvas does and starts as its initial chart; the container starts empty. |
| Dashboard.SimpleDashboard.UpdateTimeSeriesChart | dashboard/static/js/dashboard.js:207-232 | The timeseries chart becomes `RenderTimeseries` of the old chart, the cached data and the toggles; nothing else changes. |
| Dashboard.SimpleDashboard.ClickToggle | dashboard/static/js/dashboard.js:149-154 | The toggles become `Flip` of the old toggles; the chart is then redrawn from the cached data with the new toggles. |
| Dashboard.SimpleDashboard.WriteMetricCards | dashboard/static/js/dashboard.js:177-181 | The metric loop leaves the slots as `WriteMetrics` of the old slots. |
| Dashboard.SimpleDashboard.LoadOverviewData | dashboard/static/js/dashboard.js:172-196 | A delivered payload writes the metrics and updates each existing overview chart when `chart_data` is present; a failed fetch changes nothing. The overview charts keep a first dataset. |
| Dashboard.SimpleDashboard.LoadTimeSeriesData | dashboard/static/js/dashboard.js:199-204 | A delivered payload replaces the cache, and the chart is redrawn from it; a failed fetch changes nothing. |
| Dashboard.SimpleDashboard.LoadDetailsData | dashboard/static/js/dashboard.js:235-252 | A delivered payload replaces the table body's rows by `DetailRows`. Without a table body, or after a failed fetch, nothing changes. |
| Dashboard.SimpleDashboard.ShowError | dashboard/static/js/dashboard.js:255-262 | With a container, exactly one new toast with a fresh id is appended at the end, and its id is returned for the timer. Without a container nothing changes. |
| Dashboard.SimpleDashboard.ExpireToast | dashboard/static/js/dashboard.js:264-268 | The container loses that toast only, the ids stay unique, and nothing happens when it is already gone or there is no container. |
| Dashboard.SimpleDashboard.LoadAll | dashboard/static/js/dashboard.js:160-164 | Each load that succeeds renders its own part. The combined promise fails exactly when any load fails. |
| Dashboard.SimpleDashboard.LoadData | dashboard/static/js/dashboard.js:158-169 | Each field ends up as its own load's outcome decides. Exactly one error toast is appended exactly when some load failed and the container exists. That toast carries the old next toast id, the next id then advances by one, and the returned timer is that same id; otherwise no timer is returned and the toasts and next id are unchanged. |

## Left out

- The Chart.js options: chart type, fonts, aspect ratios, grid colours, border widths, point radius and tension. A chart is modelled only as its labels and its datasets, and the `update()` redraw is not modelled.
- `fetch`, `response.json()` and the asynchrony of `Promise.all`. Each fetch-and-parse is an `Outcome` parameter.
  - The three loads write disjoint fields, so `LoadData` applies them in one fixed order. This gives the state they reach in any order.
  - The `console.error` log is not modelled.
- Overlapping `loadData` runs are not modelled. A refresh clicked before the previous load settles starts a second run, and an older response can then arrive last and leave a stale cache (`dashboard/static/js/dashboard.js:202`). `LoadData` runs one call after another. The per-load methods `LoadOverviewData`, `LoadTimeSeriesData` and `LoadDetailsData` can be called in any interleaving to express such a run, but no lemma states what it leaves.
- The 5-second `setTimeout`. The removal is the explicit call `ExpireToast`, with the id `ShowError` returned.
- `toFixed(2)` works on exact reals rather than IEEE doubles.
  - A decimal such as `1.005`, stored as a double slightly below it, is rounded here as the exact decimal.
  - The exponent notation `toFixed` uses from 1e21 upwards is not modelled.
- HTML building and `innerHTML`. Rows are records, and no escaping of names or values is modelled.
- A missing `data-series` attribute on an active toggle button: `getAttribute` returns `null` and `.replace` throws. The model takes every attribute as a string.
- A metric that is present but not a number, where `toFixed` throws: `Item.metric` is a number or absent.
- A timeseries payload that is JSON `null`, which leaves the chart untouched: the payload is always an object.
- `Charts.Lookup`: keys the payload object inherits, such as `toString`, `valueOf` or `constructor`, are not modelled, nor are members that are not arrays. The payload is a map from keys to series, so such a key gives the empty series. The original gives `[]` too for a `null`, `0`, `''` or `false` member. It plots the member itself for an inherited key (a function) or for a truthy member that is not an array (a non-zero number, a non-empty string, an object).
- `Navigation.TitleFor`: keys the title object inherits, such as `toString`, are not modelled. Their truthy values would replace `Dashboard`.
- `Dashboard.SimpleDashboard.ClickNav`: `getElementById` is looked up among the view containers only. A matching element elsewhere in the page is not modelled.
- `Object.keys` order of the `metrics` object is taken as given: `OverviewPayload.metrics` is already the ordered sequence, which puts integer-like keys first.
- Elements already in the message container before start-up are not modelled. The container holds only the toasts the dashboard adds.
- `bindEvents`' refresh button: its click runs `loadData`, which is `LoadData`. A missing button only means `LoadData` is never triggered that way. Binding itself has no state to model.
- The constructor models `init` up to `bindEvents`. The `loadData` call that `init` starts is the first `LoadData` call.
- `dashboard/main.py`, `dashboard/run.py` and `stylelint.config.cjs` (server routes, server start-up and lint configuration) are not part of this model.
