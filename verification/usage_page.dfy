/** The logic of the usage-history page: its own copy of the relative
    timestamp and the success-rate figure. */
module UsagePage {
  import opened Common
  import Dashboard = DashboardPage
  import UsageRoute

  /** The usage page's `formatTimeAgo`, which works out hours and days only
      once the smaller unit has overflowed. */
  function FormatTimeAgo(diffMs: int): (text: string)
    ensures text == Dashboard.FormatTimeAgo(diffMs)
  {
    var mins := diffMs / Dashboard.MinuteMs;
    if mins < 1 then "Just now"
    else if mins < 60 then Decimal(mins) + " min ago"
    else
      var hours := mins / 60;
      if hours < 24 then Decimal(hours) + " hours ago"
      else
        var days := hours / 24;
        Decimal(days) + " days ago"
  }

  /** `total ? Math.round(success / total * 100) : 0`, in exact arithmetic:
      the nearest whole percent, halves rounded up, and 0 for an empty month. */
  function SuccessRate(success: nat, total: nat): (rate: int)
    ensures total == 0 ==> rate == 0
    ensures total > 0 ==> 2 * total * rate <= 200 * success + total < 2 * total * (rate + 1)
  {
    if total > 0 then (200 * success + total) / (2 * total) else 0
  }

  /** A rate is a percentage when the successes are part of the total, and a
      month without failures is 100%. */
  lemma SuccessRateBounds(success: nat, total: nat)
    requires success <= total
    ensures 0 <= SuccessRate(success, total) <= 100
    ensures total > 0 && success == total ==> SuccessRate(success, total) == 100
  {
    var r := SuccessRate(success, total);
    if total > 0 {
      if r > 100 {
        UsageRoute.MulMonotone(2 * total, 101, r);
      }
      if success == total {
        UsageRoute.QuotientUnique(201 * total, 2 * total, 100);
      }
    }
  }

  /** The rate shown for a month's statistics, which is a percentage. */
  lemma MonthRateIsPercentage(logs: seq<UsageLog>)
    ensures var m := UsageRoute.StatsOf(logs);
      0 <= SuccessRate(m.success, m.total) <= 100
  {
    var m := UsageRoute.StatsOf(logs);
    SuccessRateBounds(m.success, m.total);
  }
}
