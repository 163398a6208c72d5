/** The logic of the dashboard page: relative timestamps, the key shown on each
    provider's settings card, and the recent-activity list. */
module DashboardPage {
  import opened Common
  import opened ApiKeysRoute
  import UsageRoute

  const MinuteMs: int := 60000
  const HourMs: int := 60 * MinuteMs

  /** `formatTimeAgo`, on the elapsed milliseconds: whole minutes, then whole
      hours, then whole days, each rounded down from the previous unit. */
  function FormatTimeAgo(diffMs: int): (text: string)
    ensures diffMs < MinuteMs <==> text == "Just now"
    ensures MinuteMs <= diffMs < HourMs ==> text == Decimal(diffMs / MinuteMs) + " min ago"
    ensures HourMs <= diffMs < DayMs ==> text == Decimal(diffMs / HourMs) + " hours ago"
    ensures DayMs <= diffMs ==> text == Decimal(diffMs / DayMs) + " days ago"
  {
    var mins := diffMs / MinuteMs;
    var hours := mins / 60;
    var days := hours / 24;
    NestedFloors(diffMs);
    if mins < 1 then "Just now"
    else if mins < 60 then Decimal(mins) + " min ago"
    else if hours < 24 then Decimal(hours) + " hours ago"
    else Decimal(days) + " days ago"
  }

  /** Rounding down to minutes and then to hours is rounding down to hours, and
      likewise for days. */
  lemma NestedFloors(ms: int)
    ensures ms / MinuteMs / 60 == ms / HourMs
    ensures ms / MinuteMs / 60 / 24 == ms / DayMs
  {
    var m := ms / MinuteMs;
    var h := m / 60;
    var d := h / 24;
    assert MinuteMs * m <= ms < MinuteMs * m + MinuteMs;
    assert HourMs * h <= ms < HourMs * h + HourMs;
    assert DayMs * d <= ms < DayMs * d + DayMs;
  }

  /** Distinct elapsed minutes under an hour give distinct labels. */
  lemma MinutesDistinguished(a: int, b: int)
    requires MinuteMs <= a < HourMs && MinuteMs <= b < HourMs
    requires a / MinuteMs != b / MinuteMs
    ensures FormatTimeAgo(a) != FormatTimeAgo(b)
  {
    var x, y := a / MinuteMs, b / MinuteMs;
    DecimalRoundTrip(x);
    DecimalRoundTrip(y);
    SuffixCancels(Decimal(x), Decimal(y), " min ago");
    assert FormatTimeAgo(a) == Decimal(x) + " min ago" && FormatTimeAgo(b) == Decimal(y) + " min ago";
  }

  /** Two labels with the same unit are equal only when their numbers are. */
  lemma SuffixCancels(u: string, v: string, unit: string)
    ensures u + unit == v + unit ==> u == v
  {
    if u + unit == v + unit {
      assert u == (u + unit)[..|u|];
      assert v == (v + unit)[..|v|];
    }
  }

  /** `getProviderKey`: the first listed key of the named provider, if any. */
  function GetProviderKey(keys: seq<MaskedKey>, name: string): (r: Option<MaskedKey>)
    ensures r.None? <==> forall i | 0 <= i < |keys| :: ProviderName(keys[i].provider) != name
    ensures r.Some? ==> exists i | 0 <= i < |keys| ::
      && keys[i] == r.value
      && ProviderName(r.value.provider) == name
      && forall j | 0 <= j < i :: ProviderName(keys[j].provider) != name
  {
    if keys == [] then None
    else if ProviderName(keys[0].provider) == name then Some(keys[0])
    else
      var r := GetProviderKey(keys[1..], name);
      assert r.Some? ==> exists i | 0 <= i < |keys[1..]| ::
        keys[1..][i] == r.value && forall j | 0 <= j < i :: ProviderName(keys[1..][j].provider) != name;
      assert r.Some? ==> exists i | 1 <= i < |keys| ::
        keys[i] == r.value && forall j | 0 <= j < i :: ProviderName(keys[j].provider) != name;
      r
  }

  /** A provider's settings card finds a key exactly when the listing holds one
      for that provider, and it is that provider's key. */
  lemma ProviderCardShowsListedKey(keys: seq<MaskedKey>, p: Provider)
    ensures GetProviderKey(keys, ProviderName(p)).Some? <==> exists i | 0 <= i < |keys| :: keys[i].provider == p
    ensures GetProviderKey(keys, ProviderName(p)).Some? ==> GetProviderKey(keys, ProviderName(p)).value.provider == p
  {
    var r := GetProviderKey(keys, ProviderName(p));
    if r.Some? {
      ProviderNameInjective(r.value.provider, p);
    }
    forall i | 0 <= i < |keys| && keys[i].provider == p
      ensures ProviderName(keys[i].provider) == ProviderName(p)
    {
    }
  }

  /** The number of logs the recent-activity card lists. */
  const ActivityCount: nat := 5

  /** `recentLogs.slice(0, 5)`. */
  function RecentActivity(logs: seq<UsageLog>): (r: seq<UsageLog>)
    ensures |r| == if |logs| < ActivityCount then |logs| else ActivityCount
    ensures forall i | 0 <= i < |r| :: r[i] == logs[i]
  {
    UsageRoute.Take(logs, ActivityCount)
  }

  /** Over the usage report, the card lists the caller's five newest logs:
      newest first, and no log of theirs left off the card is newer than one on it. */
  lemma ActivityIsNewest(logs: seq<UsageLog>, userId: string)
    ensures var r := RecentActivity(UsageRoute.RecentLogs(logs, userId));
      && (forall i | 0 <= i < |r| :: r[i].userId == userId)
      && UsageRoute.NewestOf(UsageRoute.UserLogs(logs, userId), r)
  {
    var recent := UsageRoute.RecentLogs(logs, userId);
    UsageRoute.TakeKeepsNewest(UsageRoute.UserLogs(logs, userId), recent, ActivityCount);
  }
}
