/** The chart's buckets (`getChartIntervals`) and which bucket an order falls in
    (`getIntervalLabel`). Dates are day numbers and hours of the day; the locale's
    formatting of a label is left to the caller, so a label is the hour, day or month it
    names. */
module Chart {
  import opened Records
  import opened Tally
  import opened Reports

  datatype Period = Daily | Weekly | Monthly | Yearly

  /** The offsets `i` of `getChartIntervals`' four loops, oldest first: hours of today for
      the daily chart, days back for the weekly and monthly charts, months back for the
      yearly chart. */
  method ChartIntervals(p: Period) returns (offsets: seq<int>)
    ensures p == Daily ==> |offsets| == 24 && forall k :: 0 <= k < 24 ==> offsets[k] == 23 - k
    ensures p == Weekly ==> offsets == [6, 5, 4, 3, 2, 1, 0]
    ensures p == Monthly ==> offsets == [29, 24, 19, 14, 9, 4]
    ensures p == Yearly ==> |offsets| == 12 && forall k :: 0 <= k < 12 ==> offsets[k] == 11 - k
  {
    offsets := [];
    match p {
      case Daily =>
        var i := 23;
        while i >= 0
          invariant -1 <= i <= 23 && |offsets| == 23 - i
          invariant forall k :: 0 <= k < |offsets| ==> offsets[k] == 23 - k
        {
          offsets := offsets + [i];
          i := i - 1;
        }
      case Weekly =>
        var i := 6;
        while i >= 0
          invariant -1 <= i <= 6 && |offsets| == 6 - i
          invariant forall k :: 0 <= k < |offsets| ==> offsets[k] == 6 - k
        {
          offsets := offsets + [i];
          i := i - 1;
        }
      case Monthly =>
        var i := 29;
        while i >= 0
          invariant -1 <= i <= 29 && 5 * |offsets| == 29 - i
          invariant forall k :: 0 <= k < |offsets| ==> offsets[k] == 29 - 5 * k
        {
          offsets := offsets + [i];
          i := i - 5;
        }
      case Yearly =>
        var i := 11;
        while i >= 0
          invariant -1 <= i <= 11 && |offsets| == 11 - i
          invariant forall k :: 0 <= k < |offsets| ==> offsets[k] == 11 - k
        {
          offsets := offsets + [i];
          i := i - 1;
        }
    }
  }

  /** Every order satisfies the filter, so the filtered total is the whole total. */
  lemma {:induction false} TotalWhereAll(os: seq<Order>, p: Order -> bool)
    requires forall i :: 0 <= i < |os| ==> p(os[i])
    ensures TotalWhere(os, p) == SumTotals(os)
  {
    if os != [] {
      TotalWhereAll(os[..|os| - 1], p);
    }
  }

  // ---------------------------------------------------------------- daily chart

  /** The daily chart's labels `23:00` … `0:00`, as hours. */
  function DailyLabels(): seq<int>
  {
    seq(24, k requires 0 <= k < 24 => 23 - k)
  }

  /** An order's hour is always one of the daily labels, so the daily chart accounts for
      every order of the day. */
  lemma DailyChartComplete(os: seq<Order>, hourOf: Order -> int)
    requires forall i :: 0 <= i < |os| ==> 0 <= hourOf(os[i]) < 24
    ensures SumValues(SalesData(DailyLabels(), os, hourOf)) == SumTotals(os)
  {
    var labels := DailyLabels();
    var labelled := (o: Order) => hourOf(o) in labels;
    ChartSum(labels, os, hourOf, labelled);
    forall i | 0 <= i < |os| ensures labelled(os[i]) {
      var h := hourOf(os[i]);
      assert labels[23 - h] == h;
    }
    TotalWhereAll(os, labelled);
  }

  // ---------------------------------------------------------------- monthly chart

  /** The monthly chart's labels: the days `today - i` for the monthly offsets. */
  function MonthlyLabels(today: int): seq<int>
  {
    [today - 29, today - 24, today - 19, today - 14, today - 9, today - 4]
  }

  /** As written, an order's monthly label is its own date, which is a bucket only when
      the order falls exactly on one of the six labelled days: an order placed today, with
      a positive total, is missing from the chart. */
  lemma MonthlyChartMissesToday(today: int, o: Order, dayOf: Order -> int)
    requires dayOf(o) == today && o.total > 0
    ensures SumValues(SalesData(MonthlyLabels(today), [o], dayOf)) == 0
    ensures SumTotals([o]) > 0
  {
    ChartSpec(MonthlyLabels(today), [o], dayOf);
    assert [o][..0] == [];
  }

  /** As written, the monthly chart's sum is the total of the orders placed on the six
      labelled days, and no more. */
  lemma MonthlyChartAsWritten(today: int, os: seq<Order>, dayOf: Order -> int)
    ensures SumValues(SalesData(MonthlyLabels(today), os, dayOf))
            == TotalWhere(os, (o: Order) => dayOf(o) in MonthlyLabels(today))
  {
    ChartSpec(MonthlyLabels(today), os, dayOf);
  }

  /** The bucket the monthly chart evidently means for a day of the last 30: the labelled
      day that starts its five-day span. Days outside the window keep their own date and
      so fall in no bucket. */
  function MonthlyBucket(today: int, day: int): (r: int)
    ensures today - 29 <= day <= today ==> r in MonthlyLabels(today) && r <= day < r + 5
    ensures !(today - 29 <= day <= today) ==> r !in MonthlyLabels(today)
  {
    if today - 29 <= day <= today then today - 29 + 5 * ((day - (today - 29)) / 5) else day
  }

  /** With five-day buckets every order of the last 30 days lands in exactly one bucket:
      each bucket holds the orders of its five days, and the chart adds up to the total of
      the orders in the window. */
  lemma MonthlyChartCorrected(today: int, os: seq<Order>, dayOf: Order -> int)
    ensures forall k :: 0 <= k < 6 ==>
              Get(SalesData(MonthlyLabels(today), os, (o: Order) => MonthlyBucket(today, dayOf(o))), MonthlyLabels(today)[k])
              == TotalWhere(os, (o: Order) => MonthlyLabels(today)[k] <= dayOf(o) < MonthlyLabels(today)[k] + 5)
    ensures SumValues(SalesData(MonthlyLabels(today), os, (o: Order) => MonthlyBucket(today, dayOf(o))))
            == TotalWhere(os, (o: Order) => today - 29 <= dayOf(o) <= today)
  {
    var labels := MonthlyLabels(today);
    var bucketOf := (o: Order) => MonthlyBucket(today, dayOf(o));
    forall k | 0 <= k < 6
      ensures Get(SalesData(labels, os, bucketOf), labels[k])
              == TotalWhere(os, (o: Order) => labels[k] <= dayOf(o) < labels[k] + 5)
    {
      var l := labels[k];
      assert l in labels;
      var inSpan := (o: Order) => l <= dayOf(o) < l + 5;
      forall o ensures inSpan(o) <==> bucketOf(o) == l {
        var d := dayOf(o);
        if today - 29 <= d <= today {
          assert MonthlyBucket(today, d) == today - 29 + 5 * ((d - (today - 29)) / 5);
        }
      }
      ChartBucket(labels, os, bucketOf, l, inSpan);
    }
    var inWindow := (o: Order) => today - 29 <= dayOf(o) <= today;
    forall o ensures inWindow(o) <==> bucketOf(o) in labels {
      assert bucketOf(o) == MonthlyBucket(today, dayOf(o));
    }
    ChartSum(labels, os, bucketOf, inWindow);
  }

  /** With five-day buckets, a chart over orders of the last 30 days accounts for all of
      them. */
  lemma MonthlyChartComplete(today: int, os: seq<Order>, dayOf: Order -> int)
    requires forall i :: 0 <= i < |os| ==> today - 29 <= dayOf(os[i]) <= today
    ensures SumValues(SalesData(MonthlyLabels(today), os, (o: Order) => MonthlyBucket(today, dayOf(o))))
            == SumTotals(os)
  {
    MonthlyChartCorrected(today, os, dayOf);
    TotalWhereAll(os, (o: Order) => today - 29 <= dayOf(o) <= today);
  }
}
