/** The `/api/user/usage` handler: the caller's twenty newest usage logs, the
    current month's counts grouped by status, and the change against the
    previous month in whole percent. */
module UsageRoute {
  import opened Common

  /** How many recent logs the report lists. */
  const RecentCount: nat := 20

  /** `where: { userId }`: the logs of one user, in their original order. */
  function UserLogs(logs: seq<UsageLog>, userId: string): (r: seq<UsageLog>)
    ensures forall l :: l in r <==> l in logs && l.userId == userId
    ensures forall l :: multiset(r)[l] == if l.userId == userId then multiset(logs)[l] else 0
    ensures forall i | 0 <= i < |r| :: r[i].userId == userId
  {
    if logs == [] then []
    else
      assert logs == [logs[0]] + logs[1..];
      (if logs[0].userId == userId then [logs[0]] else []) + UserLogs(logs[1..], userId)
  }

  /** Reordering keeps every log's owner. */
  lemma SameOwners(a: seq<UsageLog>, b: seq<UsageLog>, userId: string)
    requires multiset(a) == multiset(b)
    requires forall i | 0 <= i < |a| :: a[i].userId == userId
    ensures forall i | 0 <= i < |b| :: b[i].userId == userId
  {
    forall i | 0 <= i < |b|
      ensures b[i].userId == userId
    {
      assert b[i] in multiset(a);
    }
  }

  /** `where: { userId, createdAt: { gte: from, lt: until } }`, the upper bound optional. */
  predicate InWindow(l: UsageLog, userId: string, from: int, until: Option<int>) {
    l.userId == userId && from <= l.createdAt && (until.None? || l.createdAt < until.value)
  }

  /** The logs of one user created at or after `from` and, when `until` is
      present, strictly before it, in their original order. */
  function Window(logs: seq<UsageLog>, userId: string, from: int, until: Option<int>): (r: seq<UsageLog>)
    ensures forall l :: l in r <==> l in logs && InWindow(l, userId, from, until)
    ensures forall l :: multiset(r)[l] == if InWindow(l, userId, from, until) then multiset(logs)[l] else 0
  {
    if logs == [] then []
    else
      assert logs == [logs[0]] + logs[1..];
      (if InWindow(logs[0], userId, from, until) then [logs[0]] else []) + Window(logs[1..], userId, from, until)
  }

  /** Newest first. */
  ghost predicate SortedNewest(s: seq<UsageLog>) {
    forall i, j | 0 <= i < j < |s| :: s[i].createdAt >= s[j].createdAt
  }

  /** `r` lists newest logs of `u`: newest first, drawn from `u`, and no log
      of `u` that it leaves out is newer than one it lists. */
  ghost predicate NewestOf(u: seq<UsageLog>, r: seq<UsageLog>) {
    && SortedNewest(r)
    && multiset(r) <= multiset(u)
    && forall l, i | l in multiset(u) - multiset(r) && 0 <= i < |r| :: l.createdAt <= r[i].createdAt
  }

  /** Puts `x` into a sequence ahead of the first log not newer than it. */
  function Insert(x: UsageLog, s: seq<UsageLog>): (r: seq<UsageLog>)
    ensures multiset(r) == multiset(s) + multiset{x}
    ensures |r| == |s| + 1
    ensures r[0] == x || (|s| > 0 && r[0] == s[0])
  {
    if s == [] || x.createdAt >= s[0].createdAt then
      [x] + s
    else
      assert s == [s[0]] + s[1..];
      [s[0]] + Insert(x, s[1..])
  }

  /** Inserting into a newest-first sequence keeps it newest first. */
  lemma {:induction false} InsertSorted(x: UsageLog, s: seq<UsageLog>)
    requires SortedNewest(s)
    ensures SortedNewest(Insert(x, s))
  {
    if s != [] && x.createdAt < s[0].createdAt {
      var tail := Insert(x, s[1..]);
      InsertSorted(x, s[1..]);
      assert s[0].createdAt >= tail[0].createdAt;
      assert forall j | 0 <= j < |tail| :: s[0].createdAt >= tail[j].createdAt;
    }
  }

  /** `orderBy: { createdAt: 'desc' }`: the logs newest first, as an insertion sort. */
  function SortNewest(s: seq<UsageLog>): (r: seq<UsageLog>)
    ensures SortedNewest(r)
    ensures multiset(r) == multiset(s)
    ensures |r| == |s|
  {
    if s == [] then []
    else
      assert s == [s[0]] + s[1..];
      InsertSorted(s[0], SortNewest(s[1..]));
      Insert(s[0], SortNewest(s[1..]))
  }

  /** The first `n` logs of a sequence, or all of them when it is shorter. */
  function Take(s: seq<UsageLog>, n: nat): (r: seq<UsageLog>)
    ensures |r| == if |s| < n then |s| else n
    ensures r == s[..|r|]
  {
    if |s| < n then s else s[..n]
  }

  /** `findMany({ where: { userId }, orderBy: { createdAt: 'desc' }, take: 20 })`:
      the user's twenty newest logs, or all of them when they have fewer. */
  function RecentLogs(logs: seq<UsageLog>, userId: string): (r: seq<UsageLog>)
    ensures |r| == if |UserLogs(logs, userId)| < RecentCount then |UserLogs(logs, userId)| else RecentCount
    ensures forall i | 0 <= i < |r| :: r[i].userId == userId
    ensures NewestOf(UserLogs(logs, userId), r)
  {
    var u := UserLogs(logs, userId);
    var sorted := SortNewest(u);
    SameOwners(u, sorted, userId);
    SortIsNewest(u);
    TakeKeepsNewest(u, sorted, RecentCount);
    Take(sorted, RecentCount)
  }

  /** A full sort is a newest-first selection that leaves nothing out. */
  lemma SortIsNewest(u: seq<UsageLog>)
    ensures NewestOf(u, SortNewest(u))
  {
    assert multiset(u) - multiset(SortNewest(u)) == multiset{};
  }

  /** Cutting a newest-first selection from `u` gives another. */
  lemma TakeKeepsNewest(u: seq<UsageLog>, s: seq<UsageLog>, n: nat)
    requires NewestOf(u, s)
    ensures NewestOf(u, Take(s, n))
  {
    var r := Take(s, n);
    var k := |r|;
    assert s == r + s[k..];
    assert multiset(s) == multiset(r) + multiset(s[k..]);
    forall l: UsageLog, i: int | l in multiset(u) - multiset(r) && 0 <= i < k
      ensures l.createdAt <= r[i].createdAt
    {
      assert r[i] == s[i];
      if multiset(s)[l] > multiset(r)[l] {
        assert l in multiset(s[k..]);
        TailIsOlder(s, k, l);
      } else {
        assert l in multiset(u) - multiset(s);
      }
    }
  }

  /** In a newest-first sequence, a log past position `k` is no newer than
      any before it. */
  lemma TailIsOlder(s: seq<UsageLog>, k: nat, l: UsageLog)
    requires SortedNewest(s) && k <= |s| && l in multiset(s[k..])
    ensures forall i | 0 <= i < k :: l.createdAt <= s[i].createdAt
  {
    var j :| 0 <= j < |s[k..]| && s[k..][j] == l;
    assert s[k + j] == l;
  }

  /** The number of logs with a given status. */
  function CountStatus(s: seq<UsageLog>, st: Status): (n: nat)
    ensures n <= |s|
  {
    if s == [] then 0 else (if s[0].status == st then 1 else 0) + CountStatus(s[1..], st)
  }

  /** The rows processed by the logs with a given status. */
  function RowsWithStatus(s: seq<UsageLog>, st: Status): int {
    if s == [] then 0 else (if s[0].status == st then s[0].rowsProcessed else 0) + RowsWithStatus(s[1..], st)
  }

  /** The rows processed by all the logs. */
  function RowsSum(s: seq<UsageLog>): int {
    if s == [] then 0 else s[0].rowsProcessed + RowsSum(s[1..])
  }

  /** Every log is either a success or a failure. */
  lemma {:induction false} StatusesPartition(s: seq<UsageLog>)
    ensures CountStatus(s, Success) + CountStatus(s, Failed) == |s|
    ensures RowsWithStatus(s, Success) + RowsWithStatus(s, Failed) == RowsSum(s)
  {
    if s != [] {
      StatusesPartition(s[1..]);
    }
  }

  /** One row of `groupBy({ by: ['status'], _count, _sum: { rowsProcessed } })`. */
  datatype StatusGroup = StatusGroup(status: Status, count: nat, rowsSum: int)

  /** The groups of the logs by status: one per status that occurs. */
  function GroupByStatus(s: seq<UsageLog>): (gs: seq<StatusGroup>)
    ensures forall i | 0 <= i < |gs| :: gs[i].count > 0
    ensures forall i | 0 <= i < |gs| ::
      gs[i].count == CountStatus(s, gs[i].status) && gs[i].rowsSum == RowsWithStatus(s, gs[i].status)
    ensures forall i, j | 0 <= i < j < |gs| :: gs[i].status != gs[j].status
  {
    Group(s, Success) + Group(s, Failed)
  }

  function Group(s: seq<UsageLog>, st: Status): (g: seq<StatusGroup>)
    ensures |g| == if CountStatus(s, st) > 0 then 1 else 0
    ensures forall i | 0 <= i < |g| :: g[i] == StatusGroup(st, CountStatus(s, st), RowsWithStatus(s, st))
  {
    if CountStatus(s, st) > 0 then [StatusGroup(st, CountStatus(s, st), RowsWithStatus(s, st))] else []
  }

  /** `reduce((acc, stat) => acc + stat._count, 0)`. */
  function TotalCount(gs: seq<StatusGroup>): nat {
    if gs == [] then 0 else gs[0].count + TotalCount(gs[1..])
  }

  /** `reduce((acc, s) => acc + (s._sum.rowsProcessed || 0), 0)`. */
  function RowsTotal(gs: seq<StatusGroup>): int {
    if gs == [] then 0 else gs[0].rowsSum + RowsTotal(gs[1..])
  }

  /** `find(s => s.status === st)?._count || 0`. */
  function FindCount(gs: seq<StatusGroup>, st: Status): (n: nat)
    ensures (forall i | 0 <= i < |gs| :: gs[i].status != st) ==> n == 0
  {
    if gs == [] then 0 else if gs[0].status == st then gs[0].count else FindCount(gs[1..], st)
  }

  /** Summing over the groups counts every log once and adds up all rows. */
  lemma GroupTotals(s: seq<UsageLog>)
    ensures TotalCount(GroupByStatus(s)) == |s|
    ensures RowsTotal(GroupByStatus(s)) == RowsSum(s)
  {
    StatusesPartition(s);
    GroupSums(s, Success);
    GroupSums(s, Failed);
    SumsOfConcat(Group(s, Success), Group(s, Failed));
  }

  lemma GroupSums(s: seq<UsageLog>, st: Status)
    ensures TotalCount(Group(s, st)) == CountStatus(s, st)
    ensures RowsTotal(Group(s, st)) == RowsWithStatus(s, st)
  {
    var g := Group(s, st);
    if g != [] {
      assert g[1..] == [];
    }
  }

  lemma SumsOfConcat(a: seq<StatusGroup>, b: seq<StatusGroup>)
    requires |a| <= 1
    ensures TotalCount(a + b) == TotalCount(a) + TotalCount(b)
    ensures RowsTotal(a + b) == RowsTotal(a) + RowsTotal(b)
  {
    if a == [] {
      assert a + b == b;
    } else {
      assert (a + b)[1..] == b;
      assert a[1..] == [];
    }
  }

  /** Looking a status up among the groups gives that status's count. */
  lemma FindGroup(s: seq<UsageLog>, st: Status)
    ensures FindCount(GroupByStatus(s), st) == CountStatus(s, st)
  {
    var a, b := Group(s, Success), Group(s, Failed);
    var gs := a + b;
    assert GroupByStatus(s) == gs;
    if a != [] {
      assert gs[1..] == b;
    } else {
      assert gs == b;
    }
  }

  /** The `monthlyStats` object of the report. */
  datatype MonthlyStats = MonthlyStats(total: nat, success: nat, failed: nat, rowsProcessed: int)

  /** The grouped figures of a set of logs: what the total counts, what
      successes and failures split, and what the rows add up to. */
  function StatsOf(s: seq<UsageLog>): (m: MonthlyStats)
    ensures m.total == |s|
    ensures m.success == CountStatus(s, Success) && m.failed == CountStatus(s, Failed)
    ensures m.success + m.failed == m.total
    ensures m.rowsProcessed == RowsSum(s)
  {
    var gs := GroupByStatus(s);
    GroupTotals(s);
    FindGroup(s, Success);
    FindGroup(s, Failed);
    StatusesPartition(s);
    MonthlyStats(TotalCount(gs), FindCount(gs, Success), FindCount(gs, Failed), RowsTotal(gs))
  }

  /** `Math.round(x / d)` for a positive `d`: the `q` with `d * q <= x + d / 2 < d * (q + 1)`,
      here with both sides doubled to stay in integers. */
  lemma QuotientUnique(x: int, d: int, q: int)
    requires d > 0 && d * q <= x < d * (q + 1)
    ensures x / d == q
  {
    var r := x / d;
    if r < q {
      MulMonotone(d, r + 1, q);
    } else if r > q {
      MulMonotone(d, q + 1, r);
    }
  }

  lemma MulMonotone(d: int, a: int, b: int)
    requires d > 0 && a <= b
    ensures d * a <= d * b
  {
    assert d * b - d * a == d * (b - a);
  }

  /** `Math.round((thisMonth - lastMonth) / lastMonth * 100)`, or 0 without a
      previous month, in exact arithmetic: the nearest whole percent, halves
      rounded up. */
  function PercentChange(thisMonth: nat, lastMonth: nat): (r: int)
    ensures lastMonth == 0 ==> r == 0
    ensures lastMonth > 0 ==>
      2 * lastMonth * r <= 200 * (thisMonth - lastMonth) + lastMonth < 2 * lastMonth * (r + 1)
  {
    if lastMonth > 0 then (200 * (thisMonth - lastMonth) + lastMonth) / (2 * lastMonth) else 0
  }

  /** The sign of the change follows the counts, and the change is never
      below -100. */
  lemma PercentChangeSign(thisMonth: nat, lastMonth: nat)
    ensures thisMonth == lastMonth ==> PercentChange(thisMonth, lastMonth) == 0
    ensures thisMonth > lastMonth ==> PercentChange(thisMonth, lastMonth) >= 0
    ensures thisMonth < lastMonth ==> PercentChange(thisMonth, lastMonth) <= 0
    ensures PercentChange(thisMonth, lastMonth) >= -100
  {
    var r := PercentChange(thisMonth, lastMonth);
    var l := lastMonth;
    if l > 0 {
      if r > 0 {
        MulMonotone(2 * l, 1, r);
      }
      if r < -100 {
        MulMonotone(2 * l, r + 1, -100);
      } else if r < 0 {
        MulMonotone(2 * l, r + 1, 0);
      }
      if thisMonth == l {
        QuotientUnique(l, 2 * l, 0);
      }
    }
  }

  /** A month with no requests after a month with some is a 100% drop, and a
      doubling is a 100% rise. */
  lemma PercentChangeExamples(lastMonth: nat)
    requires lastMonth > 0
    ensures PercentChange(0, lastMonth) == -100
    ensures PercentChange(2 * lastMonth, lastMonth) == 100
  {
    QuotientUnique(-199 * lastMonth, 2 * lastMonth, -100);
    QuotientUnique(201 * lastMonth, 2 * lastMonth, 100);
  }

  /** The previous month and the current one, split at `monthStart`, make up
      everything since `lastMonthStart`. */
  lemma {:induction false} WindowsPartition(logs: seq<UsageLog>, userId: string, lastMonthStart: int, monthStart: int)
    requires lastMonthStart <= monthStart
    ensures |Window(logs, userId, lastMonthStart, Some(monthStart))| + |Window(logs, userId, monthStart, None)|
         == |Window(logs, userId, lastMonthStart, None)|
  {
    if logs != [] {
      WindowsPartition(logs[1..], userId, lastMonthStart, monthStart);
    }
  }

  /** The body of a successful GET. */
  datatype UsageReport = UsageReport(recentLogs: seq<UsageLog>, monthlyStats: MonthlyStats, percentChange: int)

  /** GET, over the store's logs. The month boundaries are the local-time
      starts of the current and the previous month, computed by the caller. */
  function Report(logs: seq<UsageLog>, user: Option<string>, monthStart: int, lastMonthStart: int): (r: Response<UsageReport>)
    ensures user.None? <==> r == Fail(Unauthorized)
    ensures user.Some? ==> r.Ok?
    ensures r.Ok? ==> r.body.recentLogs == RecentLogs(logs, user.value)
    ensures r.Ok? ==>
      var thisMonth := Window(logs, user.value, monthStart, None);
      && r.body.monthlyStats == StatsOf(thisMonth)
      && r.body.percentChange == PercentChange(|thisMonth|, |Window(logs, user.value, lastMonthStart, Some(monthStart))|)
  {
    if user.None? then Fail(Unauthorized)
    else
      var thisMonth := Window(logs, user.value, monthStart, None);
      var lastMonth := Window(logs, user.value, lastMonthStart, Some(monthStart));
      var stats := StatsOf(thisMonth);
      Ok(UsageReport(RecentLogs(logs, user.value), stats, PercentChange(stats.total, |lastMonth|)))
  }
}
