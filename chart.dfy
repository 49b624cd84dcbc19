/**
 * The period selector and the series `updateChartData` hands to the chart.
 */
module Chart {
  import Links

  datatype Period = Daily | Weekly | Monthly

  datatype Series = Series(labels: seq<string>, values: seq<nat>)

  /** `links[0].trend` with no first link throws a `TypeError` in the source. */
  datatype ChartError = NoPrimaryLink

  datatype ChartResult = Drawn(series: Series) | Failed(error: ChartError)

  const DayLabels: seq<string> := ["Pzt", "Sal", "Çar", "Per", "Cum", "Cmt", "Paz"]
  const WeekLabels: seq<string> := ["Hafta 1", "Hafta 2", "Hafta 3", "Hafta 4", "Hafta 5", "Hafta 6", "Hafta 7"]
  const MonthLabels: seq<string> := ["Oca", "Şub", "Mar", "Nis", "May", "Haz", "Tem"]

  const WeeklyValues: seq<nat> := [1200, 1350, 1100, 1450, 1600, 1300, 1550]
  const MonthlyValues: seq<nat> := [4500, 5200, 4800, 6100, 5800, 7200, 6900]

  /** The `switch (period)` of `updateChartData`. */
  function ChartData(period: Period, links: seq<Links.Link>): (r: ChartResult)
    ensures r.Failed? <==> period == Daily && links == []
    ensures r.Drawn? ==> |r.series.labels| == 7
  {
    match period
    case Daily =>
      if links == [] then Failed(NoPrimaryLink) else Drawn(Series(DayLabels, links[0].trend))
    case Weekly => Drawn(Series(WeekLabels, WeeklyValues))
    case Monthly => Drawn(Series(MonthLabels, MonthlyValues))
  }

  /** For well-formed records every period yields a seven-point series with seven labels. */
  lemma ChartDataSevenPoints(period: Period, links: seq<Links.Link>)
    requires Links.WellFormed(links)
    requires period == Daily ==> links != []
    ensures ChartData(period, links).Drawn?
    ensures |ChartData(period, links).series.labels| == Links.TrendLength
    ensures |ChartData(period, links).series.values| == Links.TrendLength
  {
  }

  /** The daily series is the first link's trend, whatever the other links hold. */
  lemma DailyIsPrimaryTrend(links: seq<Links.Link>, others: seq<Links.Link>)
    requires links != []
    ensures ChartData(Daily, links) == Drawn(Series(DayLabels, links[0].trend))
    ensures ChartData(Daily, links) == ChartData(Daily, [links[0]] + others)
  {
  }

  /** The weekly and monthly series are static: no two collections of links tell them apart. */
  lemma StaticPeriodsIgnoreLinks(period: Period, a: seq<Links.Link>, b: seq<Links.Link>)
    requires period != Daily
    ensures ChartData(period, a) == ChartData(period, b)
    ensures ChartData(period, a).series.values == if period == Weekly then WeeklyValues else MonthlyValues
  {
  }
}
