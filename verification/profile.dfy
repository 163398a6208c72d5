/** The `/api/user/profile` handler: the caller's profile, created on first
    visit, with the days left in the 30-day billing cycle. */
module ProfileRoute {
  import opened Common
  import opened Store

  /** Length of a billing cycle in days. */
  const CycleDays: int := 30

  /** `Math.ceil(ms / DayMs)`: the least whole number of days covering `ms`. */
  function CeilDays(ms: int): (d: int)
    ensures DayMs * (d - 1) < ms <= DayMs * d
  {
    -((-ms) / DayMs)
  }

  /** Whole days, rounded up and never negative, from `now` to the end of the
      cycle that began at `start` (or at `now` when the profile has no start). */
  function DaysUntilRenewal(start: Option<int>, now: int): (days: int)
    ensures days >= 0
  {
    var begin := if start.Some? then start.value else now;
    var renewal := begin + CycleDays * DayMs;
    if CeilDays(renewal - now) < 0 then 0 else CeilDays(renewal - now)
  }

  /** A profile without a cycle start, or whose cycle starts now, has the whole
      cycle ahead. */
  lemma FullCycleAhead(start: Option<int>, now: int)
    requires start.None? || start == Some(now)
    ensures DaysUntilRenewal(start, now) == CycleDays
  {
    assert CeilDays(CycleDays * DayMs) == CycleDays;
  }

  /** Once the cycle has begun, at most a full cycle remains. */
  lemma DaysBounded(start: int, now: int)
    requires start <= now
    ensures 0 <= DaysUntilRenewal(Some(start), now) <= CycleDays
  {
    var d := CeilDays(start + CycleDays * DayMs - now);
    assert DayMs * (d - 1) < CycleDays * DayMs;
  }

  /** The count reaches zero exactly when the cycle is over. */
  lemma RenewalDue(start: int, now: int)
    ensures DaysUntilRenewal(Some(start), now) == 0 <==> now >= start + CycleDays * DayMs
  {
  }

  /** The count never goes up as time passes. */
  lemma DaysNonIncreasing(start: Option<int>, now: int, later: int)
    requires start.Some? && now <= later
    ensures DaysUntilRenewal(start, later) <= DaysUntilRenewal(start, now)
  {
    var renewal := start.value + CycleDays * DayMs;
    var a, b := CeilDays(renewal - now), CeilDays(renewal - later);
    assert DayMs * (b - 1) < DayMs * a;
  }

  /** The body of a successful GET: the profile's columns, the key summaries
      (provider and creation time) and the renewal count. */
  datatype ProfileView = ProfileView(
    id: string,
    email: string,
    fullName: Option<string>,
    avatarUrl: Option<string>,
    plan: Plan,
    requestsUsed: int,
    requestsLimit: int,
    daysUntilRenewal: int,
    apiKeys: seq<(Provider, int)>,
    createdAt: int)

  /** The provider and creation time of each key row. */
  function KeySummaries(rows: seq<(Provider, ApiKey)>): (s: seq<(Provider, int)>)
    ensures |s| == |rows|
    ensures forall i | 0 <= i < |rows| :: s[i] == (rows[i].0, rows[i].1.createdAt)
  {
    seq(|rows|, i requires 0 <= i < |rows| => (rows[i].0, rows[i].1.createdAt))
  }

  /** GET: an existing profile is read; a first-time caller gets a new Free
      profile with the default allowance. Creation fails (500) when another
      profile already has the caller's email. */
  method Get(db: Db, user: Option<AuthUser>, now: int) returns (res: Response<ProfileView>)
    requires db.Valid()
    modifies db
    ensures db.Valid()
    ensures user.None? ==> res == Fail(Unauthorized)
    ensures res.Fail? ==> unchanged(db)
    ensures user.Some? && user.value.id in old(db.profiles) ==> unchanged(db) && res.Ok?
    ensures user.Some? && user.value.id !in old(db.profiles) ==>
      if old(db.EmailTaken(user.value.email)) then res == Fail(InternalError)
      else
        && res.Ok?
        && db.profiles == old(db.profiles)[user.value.id := NewProfile(user.value, now)]
        && db.apiKeys == old(db.apiKeys) && db.usageLogs == old(db.usageLogs)
        && res.body.apiKeys == []
        && res.body.daysUntilRenewal == CycleDays
        && res.body.requestsUsed == 0 && res.body.requestsLimit == DefaultRequestsLimit
    // the view reports the stored profile of the caller, never another
    ensures res.Ok? ==>
      var p := db.profiles[user.value.id];
      && user.Some? && user.value.id in db.profiles
      && res.body.id == user.value.id && res.body.email == p.email
      && res.body.fullName == p.fullName && res.body.avatarUrl == p.avatarUrl && res.body.plan == p.plan
      && res.body.requestsUsed == p.requestsUsed && res.body.requestsLimit == p.requestsLimit
      && res.body.createdAt == p.createdAt
      && res.body.daysUntilRenewal == DaysUntilRenewal(p.billingCycleStart, now)
      && res.body.apiKeys == KeySummaries(db.KeyRows(user.value.id))
  {
    if user.None? {
      return Fail(Unauthorized);
    }
    var u := user.value;
    if u.id !in db.profiles {
      var ok := db.CreateProfile(NewProfile(u, now));
      if !ok {
        return Fail(InternalError);
      }
      FullCycleAhead(Some(now), now);
      assert db.KeyRows(u.id) == [] by {
        assert forall p: Provider :: (u.id, p) !in db.apiKeys;
      }
    }
    var p := db.profiles[u.id];
    var view := ProfileView(p.id, p.email, p.fullName, p.avatarUrl, p.plan, p.requestsUsed, p.requestsLimit,
                            DaysUntilRenewal(p.billingCycleStart, now), KeySummaries(db.KeyRows(u.id)), p.createdAt);
    res := Ok(view);
  }
}
