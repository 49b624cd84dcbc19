/**
 * The aggregates `updateMetrics` shows (total clicks, today's clicks, the
 * number of active links) and the compact number format they are shown in.
 */
module Metrics {
  import opened Links
  import opened Decimal

  /**
   * `links.reduce((sum, link) => sum + link.clicks.<k>, 0)`: a left fold, so
   * the last record is added last.
   */
  function Sum(links: seq<Link>, k: Counter): nat {
    if links == [] then 0
    else Sum(links[..|links| - 1], k) + CounterOf(links[|links| - 1].clicks, k)
  }

  function TotalClicks(links: seq<Link>): nat {
    Sum(links, Total)
  }

  function TodayClicks(links: seq<Link>): nat {
    Sum(links, Daily)
  }

  lemma SumAppend(links: seq<Link>, l: Link, k: Counter)
    ensures Sum(links + [l], k) == Sum(links, k) + CounterOf(l.clicks, k)
  {
    assert (links + [l])[..|links|] == links;
  }

  /** Summing is additive over concatenation, so the fold order does not matter. */
  lemma {:induction false} SumConcat(a: seq<Link>, b: seq<Link>, k: Counter)
    ensures Sum(a + b, k) == Sum(a, k) + Sum(b, k)
    decreases |b|
  {
    if b == [] {
      assert a + b == a;
    } else {
      var init := b[..|b| - 1];
      var last := b[|b| - 1];
      assert b == init + [last];
      assert a + b == (a + init) + [last];
      SumConcat(a, init, k);
      SumAppend(a + init, last, k);
      SumAppend(init, last, k);
    }
  }

  /** The right-to-left reading of the sum: first record plus the sum of the rest. */
  lemma SumFromFirst(links: seq<Link>, k: Counter)
    requires links != []
    ensures Sum(links, k) == CounterOf(links[0].clicks, k) + Sum(links[1..], k)
  {
    assert links == [links[0]] + links[1..];
    SumConcat([links[0]], links[1..], k);
    SumAppend([], links[0], k);
  }

  /** No record's counter exceeds the aggregate. */
  lemma {:induction false} SumBoundsEach(links: seq<Link>, k: Counter, i: nat)
    requires i < |links|
    ensures CounterOf(links[i].clicks, k) <= Sum(links, k)
    decreases |links|
  {
    if i < |links| - 1 {
      SumBoundsEach(links[..|links| - 1], k, i);
    }
  }

  /** The aggregate is zero exactly when every record's counter is zero. */
  lemma {:induction false} SumZeroIff(links: seq<Link>, k: Counter)
    ensures Sum(links, k) == 0 <==> forall i :: 0 <= i < |links| ==> CounterOf(links[i].clicks, k) == 0
    decreases |links|
  {
    if links != [] {
      var init := links[..|links| - 1];
      SumZeroIff(init, k);
      assert forall i :: 0 <= i < |init| ==> init[i] == links[i];
    }
  }

  /** `links.filter(link => link.status === 'active')`, in order. */
  function ActiveLinks(links: seq<Link>): (r: seq<Link>)
    ensures |r| <= |links|
    ensures forall j :: 0 <= j < |r| ==> r[j].status == Active && r[j] in links
    ensures forall i :: 0 <= i < |links| && links[i].status == Active ==> links[i] in r
  {
    if links == [] then []
    else (if links[0].status == Active then [links[0]] else []) + ActiveLinks(links[1..])
  }

  /** The filter keeps every occurrence of an active record and drops every other record. */
  lemma {:induction false} ActiveLinksMultiplicity(links: seq<Link>, x: Link)
    ensures multiset(ActiveLinks(links))[x] == if x.status == Active then multiset(links)[x] else 0
    decreases |links|
  {
    if links != [] {
      assert links == [links[0]] + links[1..];
      ActiveLinksMultiplicity(links[1..], x);
    }
  }

  function ActiveCount(links: seq<Link>): (n: nat)
    ensures n <= |links|
  {
    |ActiveLinks(links)|
  }

  lemma {:induction false} ActiveLinksAppend(links: seq<Link>, l: Link)
    ensures ActiveLinks(links + [l]) == ActiveLinks(links) + (if l.status == Active then [l] else [])
    decreases |links|
  {
    if links == [] {
      assert [l][1..] == [];
    } else {
      assert (links + [l])[0] == links[0];
      assert (links + [l])[1..] == links[1..] + [l];
      ActiveLinksAppend(links[1..], l);
    }
  }

  /** Every link is counted exactly when every link is active. */
  lemma {:induction false} ActiveCountAll(links: seq<Link>)
    ensures ActiveCount(links) == |links| <==> forall i :: 0 <= i < |links| ==> links[i].status == Active
    decreases |links|
  {
    if links != [] {
      ActiveCountAll(links[1..]);
      assert forall i :: 1 <= i < |links| ==> links[i] == links[1..][i - 1];
    }
  }

  /**
   * `formatNumber`: below 1000 the plain decimal string; from 1000 on the
   * value in thousands with one decimal and a `K`. The tenths are rounded
   * half up on the exact quotient (see README for where `toFixed(1)` on a
   * double can differ).
   */
  function FormatNumber(n: nat): (r: string)
    ensures |r| > 0
    ensures r[|r| - 1] == 'K' <==> n >= 1000
  {
    if n >= 1000 then
      var tenths := (n + 50) / 100;
      NatToDecimal(tenths / 10) + "." + [DigitChar(tenths % 10)] + "K"
    else
      NatToDecimal(n)
  }

  /** Below 1000 the number is shown verbatim: its decimal string, which reads back as `n`. */
  lemma FormatNumberSmall(n: nat)
    requires n < 1000
    ensures FormatNumber(n) == NatToDecimal(n)
    ensures AllDigits(FormatNumber(n)) && ParseNat(FormatNumber(n)) == n
  {
    ParseNatOfDecimal(n);
  }

  /**
   * From 1000 on the result is `<whole>.<digit>K`, and `<whole><digit>` read as
   * tenths of a thousand is the tenth nearest to `n` (ties upward).
   */
  lemma FormatNumberLarge(n: nat)
    requires n >= 1000
    ensures var r := FormatNumber(n);
      && |r| >= 4 && r[|r| - 1] == 'K' && r[|r| - 3] == '.'
      && AllDigits(r[..|r| - 3]) && IsDigit(r[|r| - 2])
      && (|r| > 4 ==> r[0] != '0')
      && var tenths := ParseNat(r[..|r| - 3]) * 10 + DigitValue(r[|r| - 2]);
         100 * tenths <= n + 50 < 100 * tenths + 100
  {
    var r := FormatNumber(n);
    var tenths := (n + 50) / 100;
    var whole := NatToDecimal(tenths / 10);
    assert r == whole + "." + [DigitChar(tenths % 10)] + "K";
    assert r[..|r| - 3] == whole;
    assert r[|r| - 2] == DigitChar(tenths % 10);
    ParseNatOfDecimal(tenths / 10);
    assert ParseNat(r[..|r| - 3]) * 10 + DigitValue(r[|r| - 2]) == tenths;
  }

  lemma FormatNumberExamples()
    ensures FormatNumber(999) == "999"
    ensures FormatNumber(1000) == "1.0K"
    ensures FormatNumber(12345) == "12.3K"
  {
  }

  /** What `updateMetrics` writes into the four metric cells. */
  datatype MetricsView = MetricsView(
    totalClicks: string,
    todayClicks: string,
    activeLinks: string,
    lastUpdateTime: string)

  function MetricsOf(links: seq<Link>): (v: MetricsView)
    ensures v.activeLinks == NatToDecimal(ActiveCount(links))
    ensures v.totalClicks == FormatNumber(TotalClicks(links))
    ensures v.todayClicks == FormatNumber(TodayClicks(links))
  {
    MetricsView(
      FormatNumber(TotalClicks(links)),
      FormatNumber(TodayClicks(links)),
      NatToDecimal(ActiveCount(links)),
      "Şimdi")
  }
}
