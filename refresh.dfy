/**
 * The refresh side of the dashboard: the "last updated" label `updateUI`
 * derives from the elapsed time, and the window's table of live intervals
 * that `startAutoRefresh` registers with and clears from.
 */
module Refresh {
  import opened Decimal

  /** The auto-refresh period `startAutoRefresh` passes to `setInterval`: one minute. */
  const RefreshIntervalMs: nat := 60000

  const MsPerMinute: nat := 60000

  const JustNowLabel: string := "Şimdi güncellendi"
  const AgoSuffix: string := " dakika önce güncellendi"

  /**
   * `Math.floor((now - lastUpdateTime) / 60000)`. Dafny's `/` with a positive
   * divisor already rounds toward negative infinity, as `Math.floor` does.
   */
  function Minutes(elapsedMs: int): (m: int)
    ensures m * MsPerMinute <= elapsedMs < m * MsPerMinute + MsPerMinute
  {
    elapsedMs / MsPerMinute
  }

  /** The whole number of minutes is the only one that brackets the elapsed time. */
  lemma MinutesUnique(elapsedMs: int, m: int)
    requires m * MsPerMinute <= elapsedMs < m * MsPerMinute + MsPerMinute
    ensures Minutes(elapsedMs) == m
  {
  }

  function UpdateLabel(minutes: int): (text: string) {
    if minutes == 0 then JustNowLabel else IntToDecimal(minutes) + AgoSuffix
  }

  /** The label says "just updated" exactly when no whole minute has passed. */
  lemma UpdateLabelJustNow(minutes: int)
    ensures UpdateLabel(minutes) == JustNowLabel <==> minutes == 0
  {
    if minutes != 0 {
      assert |UpdateLabel(minutes)| > |JustNowLabel|;
    }
  }

  /** Otherwise it is `<minutes> dakika önce güncellendi`, and the count reads back from its head. */
  lemma UpdateLabelAgo(minutes: int)
    requires minutes != 0
    ensures var text := UpdateLabel(minutes);
      && |text| > |AgoSuffix|
      && text[|text| - |AgoSuffix|..] == AgoSuffix
      && text[..|text| - |AgoSuffix|] == IntToDecimal(minutes)
      && ParseInt(text[..|text| - |AgoSuffix|]) == minutes
  {
    var text := UpdateLabel(minutes);
    assert text[..|text| - |AgoSuffix|] == IntToDecimal(minutes);
    ParseIntOfDecimal(minutes);
  }

  /** The label `updateUI` shows, from the two timestamps it subtracts. */
  function LastUpdateLabel(nowMs: int, lastUpdateMs: int): string {
    UpdateLabel(Minutes(nowMs - lastUpdateMs))
  }

  /** "Just updated" is shown exactly while less than a minute has passed since the last update. */
  lemma LastUpdateLabelJustNow(nowMs: int, lastUpdateMs: int)
    ensures LastUpdateLabel(nowMs, lastUpdateMs) == JustNowLabel <==> 0 <= nowMs - lastUpdateMs < MsPerMinute
  {
    UpdateLabelJustNow(Minutes(nowMs - lastUpdateMs));
    if 0 <= nowMs - lastUpdateMs < MsPerMinute {
      MinutesUnique(nowMs - lastUpdateMs, 0);
    }
  }

  /**
   * The browser's registry of live intervals. Handles are positive and never
   * reused, so a handle is truthy and names at most one interval.
   */
  class IntervalTable {
    var live: set<nat>
    var next: nat

    ghost predicate Valid()
      reads this
    {
      next > 0 && forall h :: h in live ==> 0 < h < next
    }

    constructor ()
      ensures Valid() && live == {}
    {
      live := {};
      next := 1;
    }

    /** `setInterval`: registers a new live interval under a fresh handle. */
    method SetInterval(delayMs: nat) returns (h: nat)
      requires Valid()
      modifies this
      ensures Valid()
      ensures h > 0 && h == old(next) && h !in old(live)
      ensures live == old(live) + {h}
    {
      h := next;
      live := live + {h};
      next := next + 1;
    }

    /** `clearInterval`: the interval stops; an unknown handle is ignored. */
    method ClearInterval(h: nat)
      requires Valid()
      modifies this
      ensures Valid()
      ensures live == old(live) - {h} && next == old(next)
    {
      live := live - {h};
    }
  }
}
