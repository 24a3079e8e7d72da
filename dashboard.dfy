/** The controller `SimpleDashboard`: the page elements it touches, held as
    fields, and one method per event handler or load step. */
module Dashboard {
  import opened Options
  import opened Payloads
  import opened Toggles
  import opened Charts
  import opened Details
  import opened Metrics
  import opened Navigation
  import opened Toasts

  /** What the constructor finds on the page: the nav items, view containers
      and `.page-title` (absent: `None`), the toggle buttons, the metric slots,
      the details table body (absent: `None`), whether `#messages` exists, and
      whether each chart canvas yields a 2d context. */
  datatype Page = Page(
    navItems: seq<NavItem>,
    views: seq<ViewContainer>,
    pageTitle: Option<string>,
    toggles: seq<Toggle>,
    metricSlots: Slots,
    detailsBody: Option<seq<Row>>,
    hasMessages: bool,
    hasChart1Canvas: bool,
    hasChart2Canvas: bool,
    hasTimeseriesCanvas: bool)

  /** The one message `loadData` shows when a load fails. */
  const LoadErrorMessage: string := "Failed to load dashboard data"

  class SimpleDashboard {
    var navItems: seq<NavItem>
    var views: seq<ViewContainer>
    var pageTitle: Option<string>
    var toggles: seq<Toggle>
    var timeseriesData: Option<TimeseriesPayload>
    var chart1: Option<Chart>
    var chart2: Option<Chart>
    var timeseries: Option<Chart>
    var metricSlots: Slots
    var detailsBody: Option<seq<Row>>
    var messages: Option<seq<Toast>>
    var nextToastId: nat

    /** The overview charts keep the dataset the overview update writes into,
        and every toast in the container is a distinct node created earlier. */
    ghost predicate Valid()
      reads this
    {
      && (chart1.Some? ==> |chart1.value.datasets| >= 1)
      && (chart2.Some? ==> |chart2.value.datasets| >= 1)
      && (messages.Some? ==> UniqueIds(messages.value))
      && (messages.Some? ==> forall i :: 0 <= i < |messages.value| ==> messages.value[i].id < nextToastId)
    }

    /** `constructor` and the synchronous part of `init`: the charts whose
        canvas exists are created, nothing is cached yet. The first `LoadData`
        call models the load that `init` starts. */
    constructor (page: Page)
      ensures Valid()
      ensures navItems == page.navItems && views == page.views && pageTitle == page.pageTitle
      ensures toggles == page.toggles && metricSlots == page.metricSlots && detailsBody == page.detailsBody
      ensures messages == (if page.hasMessages then Some([]) else None)
      ensures chart1 == CreateIf(page.hasChart1Canvas, InitialBarChart)
      ensures chart2 == CreateIf(page.hasChart2Canvas, InitialDoughnutChart)
      ensures timeseries == CreateIf(page.hasTimeseriesCanvas, InitialTimeseriesChart)
      ensures timeseriesData == None
    {
      navItems := page.navItems;
      views := page.views;
      pageTitle := page.pageTitle;
      toggles := page.toggles;
      metricSlots := page.metricSlots;
      detailsBody := page.detailsBody;
      messages := if page.hasMessages then Some([]) else None;
      nextToastId := 0;
      timeseriesData := None;
      chart1 := CreateIf(page.hasChart1Canvas, InitialBarChart);
      chart2 := CreateIf(page.hasChart2Canvas, InitialDoughnutChart);
      timeseries := CreateIf(page.hasTimeseriesCanvas, InitialTimeseriesChart);
    }

    /** The nav-item part of the click on item `i`: every item loses the
        `active` class, then item `i` gains it. */
    method SelectNavItem(i: nat)
      requires i < |navItems|
      modifies this`navItems
      ensures navItems == Selected(old(navItems), i)
    {
      var j := 0;
      while j < |navItems|
        invariant j <= |navItems| == |old(navItems)|
        invariant forall m :: 0 <= m < j ==> navItems[m] == old(navItems)[m].(active := false)
        invariant forall m :: j <= m < |navItems| ==> navItems[m] == old(navItems)[m]
      {
        navItems := navItems[j := navItems[j].(active := false)];
        j := j + 1;
      }
      navItems := navItems[i := navItems[i].(active := true)];
      assert forall m :: 0 <= m < |navItems| ==> navItems[m] == Selected(old(navItems), i)[m];
    }

    /** The view part of the click: every container is hidden, then the
        element with id `id` is shown again; `found` is false when there is no
        such element, where the handler throws. */
    method ShowView(id: string) returns (found: bool)
      modifies this`views
      ensures views == Shown(old(views), id)
      ensures found == (FirstWithId(old(views), id) < |views|)
    {
      var j := 0;
      while j < |views|
        invariant j <= |views| == |old(views)|
        invariant forall m :: 0 <= m < j ==> views[m] == old(views)[m].(hidden := true)
        invariant forall m :: j <= m < |views| ==> views[m] == old(views)[m]
      {
        views := views[j := views[j].(hidden := true)];
        j := j + 1;
      }
      var k := FirstWithId(views, id);
      FirstWithIdSameIds(views, old(views), id);
      found := k < |views|;
      if found {
        views := views[k := views[k].(hidden := false)];
      }
    }

    /** The click handler `initNavigation` binds to nav item `i`. When no
        element has the id `<view>-view` the handler stops with a TypeError
        after hiding every view, so the title is left as it was. */
    method ClickNav(i: nat)
      requires i < |navItems|
      modifies this`navItems, this`views, this`pageTitle
      ensures navItems == Selected(old(navItems), i)
      ensures views == Shown(old(views), ViewName(old(navItems)[i]) + "-view")
      ensures pageTitle ==
        if FirstWithId(old(views), ViewName(old(navItems)[i]) + "-view") < |views| && old(pageTitle).Some?
        then Some(TitleFor(ViewName(old(navItems)[i])))
        else old(pageTitle)
    {
      var name := ViewName(navItems[i]);
      SelectNavItem(i);
      var found := ShowView(name + "-view");
      if found && pageTitle.Some? {
        pageTitle := Some(TitleFor(name));
      }
    }

    /** `updateTimeSeriesChart`. */
    method UpdateTimeSeriesChart()
      modifies this`timeseries
      ensures timeseries == RenderTimeseries(old(timeseries), timeseriesData, toggles)
    {
      if timeseries.None? || timeseriesData.None? {
        return;
      }
      var data := timeseriesData.value;
      var datasets := SeriesDatasets(data, EffectiveKeys(toggles));
      timeseries := Some(timeseries.value.(labels := Lookup(data, "rounds"), datasets := datasets));
    }

    /** The click handler `bindEvents` binds to toggle button `i`: that button
        alone flips, then the timeseries chart is redrawn from the cached data. */
    method ClickToggle(i: nat)
      requires i < |toggles|
      modifies this`toggles, this`timeseries
      ensures toggles == Flip(old(toggles), i)
      ensures timeseries == RenderTimeseries(old(timeseries), timeseriesData, toggles)
    {
      toggles := toggles[i := toggles[i].(active := !toggles[i].active)];
      UpdateTimeSeriesChart();
    }

    /** The metric-card loop of `loadOverviewData`: the `k`-th metric (from 1)
        is written into `metric-k` when that element exists. */
    method WriteMetricCards(metrics: seq<Metric>)
      modifies this`metricSlots
      ensures metricSlots == WriteMetrics(old(metricSlots), metrics)
    {
      var idx := 0;
      while idx < |metrics|
        invariant idx <= |metrics|
        invariant metricSlots == WriteMetrics(old(metricSlots), metrics[..idx])
      {
        assert metrics[..idx + 1][..idx] == metrics[..idx];
        var slot := idx + 1;
        if slot in metricSlots {
          metricSlots := metricSlots[slot := metrics[idx].value];
        }
        idx := idx + 1;
      }
      assert metrics[..idx] == metrics;
    }

    /** `loadOverviewData`: when the fetch delivers a payload, the metrics
        are written by position and, when `chart_data` is present, both
        overview charts are updated; a failed fetch rejects before anything
        is written. `loaded` says whether the returned promise resolves. */
    method LoadOverviewData(response: Outcome<OverviewPayload>) returns (loaded: bool)
      requires Valid()
      modifies this`metricSlots, this`chart1, this`chart2
      ensures Valid()
      ensures loaded == response.Loaded?
      ensures metricSlots == if loaded then WriteMetrics(old(metricSlots), response.payload.metrics) else old(metricSlots)
      ensures chart1 == if loaded then RenderOverviewChart(old(chart1), response.payload.chartData) else old(chart1)
      ensures chart2 == if loaded then RenderOverviewChart(old(chart2), response.payload.chartData) else old(chart2)
    {
      if response.Failed? {
        return false;
      }
      var payload := response.payload;
      WriteMetricCards(payload.metrics);
      if payload.chartData.Some? {
        if chart1.Some? {
          chart1 := Some(WithChartData(chart1.value, payload.chartData.value));
        }
        if chart2.Some? {
          chart2 := Some(WithChartData(chart2.value, payload.chartData.value));
        }
      }
      loaded := true;
    }

    /** `loadTimeSeriesData`: a delivered payload replaces the cache and the
        chart is redrawn from it; a failed fetch changes nothing. */
    method LoadTimeSeriesData(response: Outcome<TimeseriesPayload>) returns (loaded: bool)
      modifies this`timeseriesData, this`timeseries
      ensures loaded == response.Loaded?
      ensures timeseriesData == if loaded then Some(response.payload) else old(timeseriesData)
      ensures timeseries == if loaded then RenderTimeseries(old(timeseries), Some(response.payload), toggles) else old(timeseries)
    {
      if response.Failed? {
        return false;
      }
      timeseriesData := Some(response.payload);
      UpdateTimeSeriesChart();
      loaded := true;
    }

    /** `loadDetailsData`: with a delivered payload the table body's rows are
        replaced, or nothing happens when there is no table body (the promise
        still resolves); a failed fetch changes nothing. */
    method LoadDetailsData(response: Outcome<DetailsPayload>) returns (loaded: bool)
      modifies this`detailsBody
      ensures loaded == response.Loaded?
      ensures detailsBody ==
        if loaded && old(detailsBody).Some? then Some(DetailRows(response.payload.items)) else old(detailsBody)
    {
      if response.Failed? {
        return false;
      }
      loaded := true;
      if detailsBody.None? {
        return;
      }
      detailsBody := Some(DetailRows(response.payload.items));
    }

    /** `showError`: one new toast at the end of the container, or nothing when
        the container is missing. The returned id stands for the pending
        `setTimeout`, which `ExpireToast` carries out. */
    method ShowError(message: string) returns (timer: Option<nat>)
      requires Valid()
      modifies this`messages, this`nextToastId
      ensures Valid()
      ensures old(messages).None? ==> messages == None && nextToastId == old(nextToastId) && timer == None
      ensures old(messages).Some? ==>
        && messages == Some(old(messages).value + [Toast(old(nextToastId), message)])
        && nextToastId == old(nextToastId) + 1
        && timer == Some(old(nextToastId))
    {
      if messages.None? {
        return None;
      }
      var toast := Toast(nextToastId, message);
      messages := Some(messages.value + [toast]);
      nextToastId := nextToastId + 1;
      timer := Some(toast.id);
    }

    /** The timed removal of toast `id`, guarded by `toast.parentNode`: only
        that toast leaves the container, and a toast already gone leaves it
        unchanged. */
    method ExpireToast(id: nat)
      requires Valid()
      modifies this`messages
      ensures Valid()
      ensures messages == if old(messages).None? then None else Some(RemoveToast(old(messages).value, id))
    {
      if messages.None? {
        return;
      }
      RemoveToastKeepsIds(messages.value, id, nextToastId);
      messages := Some(RemoveToast(messages.value, id));
    }

    /** The `Promise.all` of `loadData` once the three loads have settled:
        each load that succeeded has rendered its part; `failed` says whether
        the combined promise rejects. The three loads write disjoint fields,
        so the order in which they settle does not change the final state. */
    method LoadAll(overview: Outcome<OverviewPayload>, series: Outcome<TimeseriesPayload>, details: Outcome<DetailsPayload>)
      returns (failed: bool)
      requires Valid()
      modifies this`metricSlots, this`chart1, this`chart2, this`timeseriesData, this`timeseries, this`detailsBody
      ensures Valid()
      ensures failed == (overview.Failed? || series.Failed? || details.Failed?)
      ensures metricSlots == if overview.Loaded? then WriteMetrics(old(metricSlots), overview.payload.metrics) else old(metricSlots)
      ensures chart1 == if overview.Loaded? then RenderOverviewChart(old(chart1), overview.payload.chartData) else old(chart1)
      ensures chart2 == if overview.Loaded? then RenderOverviewChart(old(chart2), overview.payload.chartData) else old(chart2)
      ensures timeseriesData == if series.Loaded? then Some(series.payload) else old(timeseriesData)
      ensures timeseries == if series.Loaded? then RenderTimeseries(old(timeseries), Some(series.payload), toggles) else old(timeseries)
      ensures detailsBody == if details.Loaded? && old(detailsBody).Some? then Some(DetailRows(details.payload.items)) else old(detailsBody)
    {
      var overviewLoaded := LoadOverviewData(overview);
      var seriesLoaded := LoadTimeSeriesData(series);
      var detailsLoaded := LoadDetailsData(details);
      failed := !(overviewLoaded && seriesLoaded && detailsLoaded);
    }

    /** `loadData` (at start-up and on every refresh click): the three loads,
        then a single error toast when any of them failed. */
    method LoadData(overview: Outcome<OverviewPayload>, series: Outcome<TimeseriesPayload>, details: Outcome<DetailsPayload>)
      returns (timer: Option<nat>)
      requires Valid()
      modifies this`metricSlots, this`chart1, this`chart2, this`timeseriesData, this`timeseries
      modifies this`detailsBody, this`messages, this`nextToastId
      ensures Valid()
      ensures metricSlots == if overview.Loaded? then WriteMetrics(old(metricSlots), overview.payload.metrics) else old(metricSlots)
      ensures chart1 == if overview.Loaded? then RenderOverviewChart(old(chart1), overview.payload.chartData) else old(chart1)
      ensures chart2 == if overview.Loaded? then RenderOverviewChart(old(chart2), overview.payload.chartData) else old(chart2)
      ensures timeseriesData == if series.Loaded? then Some(series.payload) else old(timeseriesData)
      ensures timeseries == if series.Loaded? then RenderTimeseries(old(timeseries), Some(series.payload), toggles) else old(timeseries)
      ensures detailsBody == if details.Loaded? && old(detailsBody).Some? then Some(DetailRows(details.payload.items)) else old(detailsBody)
      ensures var failed := overview.Failed? || series.Failed? || details.Failed?;
        && messages == (if failed && old(messages).Some? then Some(old(messages).value + [Toast(old(nextToastId), LoadErrorMessage)]) else old(messages))
        && nextToastId == (if failed && old(messages).Some? then old(nextToastId) + 1 else old(nextToastId))
        && timer == (if failed && old(messages).Some? then Some(old(nextToastId)) else None)
    {
      var failed := LoadAll(overview, series, details);
      timer := None;
      if failed {
        timer := ShowError(LoadErrorMessage);
      }
    }
  }
}
