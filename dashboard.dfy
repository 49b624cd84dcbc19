/**
 * `AnalyticsDashboard`: the state the dashboard object keeps in its fields
 * (the links, the selected period, the auto-refresh handle, the time of the
 * last update) and the operations that change it. The timeouts `refreshData`
 * schedules are counted in `pendingRefreshes`; each completes with
 * `CompleteRefresh`.
 */
module Dashboard {
  import opened Wrappers
  import opened Decimal
  import opened Links
  import opened Metrics
  import Chart
  import opened Registry
  import opened Refresh

  /** What `updateUI` writes: the last-update label and the metric cells. */
  datatype DashboardView = DashboardView(lastUpdate: string, metrics: MetricsView)

  class AnalyticsDashboard {
    var links: seq<Link>
    var currentPeriod: Chart.Period
    var refreshInterval: Option<nat>
    var lastUpdateTime: int
    /** Completions of `refreshData` scheduled with `setTimeout` and not yet run. */
    var pendingRefreshes: nat
    /** The page's interval registry, which only this dashboard uses. */
    const timers: IntervalTable

    /**
     * Every record is drawable, and the interval table holds exactly the
     * stored auto-refresh handle, or nothing when none is stored.
     */
    ghost predicate Valid()
      reads this, timers
    {
      && timers.Valid()
      && WellFormed(links)
      && (refreshInterval.None? ==> timers.live == {})
      && (refreshInterval.Some? ==> timers.live == {refreshInterval.value})
    }

    /** The field initialisers of the source's constructor; `Init` does the rest. */
    constructor (nowMs: int)
      ensures Valid() && fresh(timers)
      ensures links == [] && currentPeriod == Chart.Daily && refreshInterval == None
      ensures lastUpdateTime == nowMs && pendingRefreshes == 0
    {
      links := [];
      currentPeriod := Chart.Daily;
      refreshInterval := None;
      lastUpdateTime := nowMs;
      pendingRefreshes := 0;
      timers := new IntervalTable();
    }

    /** `initializeData`: the seed replaces the collection. */
    method InitializeData(seed: seq<Link>)
      requires Valid() && WellFormed(seed)
      modifies this`links
      ensures Valid() && links == seed
    {
      links := seed;
    }

    /**
     * `init`: load the seed, draw the chart, then start the auto-refresh timer.
     * When the page has the chart element, drawing reads `links[0].trend`, so
     * an empty seed throws there and no timer is started.
     */
    method Init(seed: seq<Link>, hasChart: bool) returns (started: bool)
      requires Valid() && WellFormed(seed)
      modifies this`links, this`refreshInterval, timers
      ensures Valid() && links == seed
      ensures started <==> !hasChart || seed != []
      ensures started ==> refreshInterval.Some? && timers.live == {refreshInterval.value}
      ensures !started ==> refreshInterval == old(refreshInterval) && timers.live == old(timers.live)
    {
      InitializeData(seed);
      if hasChart && seed == [] {
        started := false;
        return;
      }
      StartAutoRefresh();
      started := true;
    }

    /** `changePeriod`: store the period and hand its series to the chart; the links are not touched. */
    method ChangePeriod(period: Chart.Period) returns (drawn: Chart.ChartResult)
      requires Valid()
      modifies this`currentPeriod
      ensures Valid() && currentPeriod == period
      ensures drawn == Chart.ChartData(period, links)
    {
      currentPeriod := period;
      drawn := Chart.ChartData(period, links);
    }

    /** `refreshData`: schedules one completion; nothing stops a second one being scheduled meanwhile. */
    method RefreshData()
      requires Valid()
      modifies this`pendingRefreshes
      ensures Valid() && pendingRefreshes == old(pendingRefreshes) + 1
    {
      pendingRefreshes := pendingRefreshes + 1;
    }

    /** The body of `refreshData`'s timeout: the last-update time becomes the current time. */
    method CompleteRefresh(nowMs: int)
      requires Valid() && pendingRefreshes > 0
      modifies this`lastUpdateTime, this`pendingRefreshes
      ensures Valid() && lastUpdateTime == nowMs
      ensures pendingRefreshes == old(pendingRefreshes) - 1
    {
      lastUpdateTime := nowMs;
      pendingRefreshes := pendingRefreshes - 1;
    }

    /**
     * `startAutoRefresh`: clear the stored interval, if any, then store a new
     * one. Afterwards exactly one interval is live, and it is a new one.
     */
    method StartAutoRefresh()
      requires Valid()
      modifies this`refreshInterval, timers
      ensures Valid()
      ensures refreshInterval.Some? && timers.live == {refreshInterval.value}
      ensures refreshInterval.value !in old(timers.live)
    {
      if refreshInterval.Some? {
        timers.ClearInterval(refreshInterval.value);
      }
      var handle := timers.SetInterval(RefreshIntervalMs);
      refreshInterval := Some(handle);
    }

    /** The interval's callback: one more refresh. It fires only while an interval is stored. */
    method OnRefreshInterval()
      requires Valid() && refreshInterval.Some?
      modifies this`pendingRefreshes
      ensures Valid() && pendingRefreshes == old(pendingRefreshes) + 1
    {
      RefreshData();
    }

    /**
     * `addNewLink`: with an empty field nothing changes (the source alerts);
     * otherwise the new record is appended and a refresh is scheduled. A new
     * record adds no clicks and one active link.
     */
    method AddNewLink(name: string, originalUrl: string, suffix: string) returns (added: bool)
      requires Valid()
      modifies this`links, this`pendingRefreshes
      ensures Valid()
      ensures added == ValidInput(name, originalUrl, suffix)
      ensures links == AddLink(old(links), name, originalUrl, suffix)
      ensures pendingRefreshes == old(pendingRefreshes) + if added then 1 else 0
      ensures TotalClicks(links) == TotalClicks(old(links)) && TodayClicks(links) == TodayClicks(old(links))
      ensures ActiveCount(links) == ActiveCount(old(links)) + if added then 1 else 0
    {
      AddLinkKeepsSums(links, name, originalUrl, suffix, Total);
      AddLinkCountsActive(links, name, originalUrl, suffix);
      AddLinkWellFormed(links, name, originalUrl, suffix);
      if name == "" || originalUrl == "" || suffix == "" {
        added := false;
        return;
      }
      var newLink := NewLink(name, suffix);
      links := links + [newLink];
      added := true;
      RefreshData();
    }

    /** `updateUI` at time `nowMs`: the last-update label and the metric cells. */
    function UpdateUI(nowMs: int): (view: DashboardView)
      reads this
      ensures view.lastUpdate == JustNowLabel <==> 0 <= nowMs - lastUpdateTime < MsPerMinute
      ensures Minutes(nowMs - lastUpdateTime) != 0 ==>
        view.lastUpdate == IntToDecimal(Minutes(nowMs - lastUpdateTime)) + AgoSuffix
      ensures view.metrics == MetricsOf(links)
    {
      LastUpdateLabelJustNow(nowMs, lastUpdateTime);
      DashboardView(LastUpdateLabel(nowMs, lastUpdateTime), MetricsOf(links))
    }
  }

  /** Starting the auto-refresh twice leaves exactly one live interval. */
  method StartTwiceLeavesOneTimer(nowMs: int) returns (d: AnalyticsDashboard)
    ensures d.Valid() && d.refreshInterval.Some? && |d.timers.live| == 1
  {
    d := new AnalyticsDashboard(nowMs);
    d.StartAutoRefresh();
    var first := d.refreshInterval.value;
    d.StartAutoRefresh();
    assert first !in d.timers.live;
  }

  /** Two refreshes triggered back to back both complete: there is no in-flight guard. */
  method DoubleRefreshCompletesTwice(nowMs: int, laterMs: int) returns (d: AnalyticsDashboard)
    ensures d.Valid() && d.pendingRefreshes == 0 && d.lastUpdateTime == laterMs
  {
    d := new AnalyticsDashboard(nowMs);
    d.RefreshData();
    d.RefreshData();
    assert d.pendingRefreshes == 2;
    d.CompleteRefresh(nowMs);
    d.CompleteRefresh(laterMs);
  }
}
