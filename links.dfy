/**
 * The link record the dashboard tracks: one shortened URL with its click
 * counters and the seven-point weekday trend its chart shows.
 */
module Links {

  datatype Status = Active | Paused | Inactive

  /** The five independently supplied counters of `clicks`. */
  datatype Clicks = Clicks(total: nat, daily: nat, yesterday: nat, weekly: nat, monthly: nat)

  datatype Link = Link(
    id: string,
    name: string,
    shortUrl: string,
    status: Status,
    clicks: Clicks,
    trend: seq<nat>)

  /** Names one of the five counters, so that one summation serves them all. */
  datatype Counter = Total | Daily | Yesterday | Weekly | Monthly

  /** The number of points of a trend: one per weekday, Monday to Sunday. */
  const TrendLength: nat := 7

  const NoClicks: Clicks := Clicks(0, 0, 0, 0, 0)

  /** The string the status filter and the card's CSS class use for a status. */
  function StatusName(s: Status): (name: string)
    ensures name == "active" || name == "paused" || name == "inactive"
  {
    match s
    case Active => "active"
    case Paused => "paused"
    case Inactive => "inactive"
  }

  lemma StatusNameInjective(s: Status, t: Status)
    ensures StatusName(s) == StatusName(t) <==> s == t
  {
    if s != t {
      assert StatusName(s)[0] != StatusName(t)[0] || |StatusName(s)| != |StatusName(t)|;
    }
  }

  function CounterOf(c: Clicks, k: Counter): nat {
    match k
    case Total => c.total
    case Daily => c.daily
    case Yesterday => c.yesterday
    case Weekly => c.weekly
    case Monthly => c.monthly
  }

  /** A record the chart can draw: its trend has one point per weekday. */
  predicate WellFormedLink(l: Link) {
    |l.trend| == TrendLength
  }

  predicate WellFormed(links: seq<Link>) {
    forall i :: 0 <= i < |links| ==> WellFormedLink(links[i])
  }
}
