/** The `/api/addon/sync` handlers the spreadsheet addon calls, identifying the
    user by email: POST meters one AI request against the profile's limit,
    GET hands back the usage snapshot and the decoded provider keys. */
module AddonSyncRoute {
  import opened Common
  import opened Store
  import ApiKeysRoute

  /** The POST body; an absent or empty field is the empty string, an absent
      rowsProcessed is 0 (the handler only tests them for falsiness). */
  datatype SyncRequest = SyncRequest(
    email: string,
    action: string,
    provider: string,
    model: string,
    rowsProcessed: int,
    status: string)

  /** The usage snapshot in a response. */
  datatype Usage = Usage(used: int, limit: int, remaining: int)

  /** The body of a successful GET. */
  datatype AddonView = AddonView(id: string, email: string, plan: Plan, usage: Usage, apiKeys: map<string, seq<byte>>)

  const DefaultAction: string := "AI Request"
  const Unknown: string := "unknown"

  /** The log row an accepted call writes: absent labels take their defaults,
      and the status is normalised to exactly success or failed. */
  function NormalisedLog(userId: string, req: SyncRequest, now: int): (log: UsageLog)
    ensures log.userId == userId && log.createdAt == now && log.rowsProcessed == req.rowsProcessed
    ensures log.action != "" && log.provider != "" && log.model != ""
    ensures req.action == "" ==> log.action == DefaultAction
    ensures req.provider == "" ==> log.provider == Unknown
    ensures req.model == "" ==> log.model == Unknown
    ensures req.action != "" ==> log.action == req.action
    ensures req.provider != "" ==> log.provider == req.provider
    ensures req.model != "" ==> log.model == req.model
    ensures log.status == Success <==> req.status == "success"
  {
    UsageLog(
      userId,
      OrDefault(req.action, DefaultAction),
      OrDefault(req.provider, Unknown),
      OrDefault(req.model, Unknown),
      req.rowsProcessed,
      if req.status == "success" then Success else Failed,
      now)
  }

  /** POST: find the profile by email, refuse with 429 once the limit is
      reached, otherwise append one log row and count exactly one request,
      whatever rowsProcessed says. */
  method Post(db: Db, req: SyncRequest, now: int) returns (res: Response<Usage>)
    requires db.Valid()
    modifies db
    ensures db.Valid()
    ensures req.email == "" ==> res == Fail(BadRequest)
    ensures req.email != "" && !old(db.EmailTaken(req.email)) ==> res == Fail(NotFound)
    ensures res.Fail? ==> unchanged(db)
    ensures req.email != "" && old(db.EmailTaken(req.email)) ==>
      var id := old(db.OwnerOf(req.email));
      var p := old(db.profiles)[id];
      if p.requestsUsed >= p.requestsLimit then
        res == Fail(LimitExceeded(p.requestsLimit, p.requestsUsed))
      else
        && res == Ok(Usage(p.requestsUsed + 1, p.requestsLimit, p.requestsLimit - p.requestsUsed - 1))
        && db.usageLogs == old(db.usageLogs) + [NormalisedLog(id, req, now)]
        && db.profiles == old(db.profiles)[id := p.(requestsUsed := p.requestsUsed + 1)]
        && db.apiKeys == old(db.apiKeys)
    // the metering invariant: an accepted call never takes a profile past its limit
    ensures res.Ok? ==> res.body.used <= res.body.limit && res.body.remaining == res.body.limit - res.body.used >= 0
    ensures db.profiles.Keys == old(db.profiles).Keys
    ensures forall id | id in old(db.profiles) && old(db.profiles)[id].requestsUsed <= old(db.profiles)[id].requestsLimit ::
      db.profiles[id].requestsUsed <= db.profiles[id].requestsLimit
  {
    if req.email == "" {
      return Fail(BadRequest);
    }
    var found := db.FindByEmail(req.email);
    if found.None? {
      return Fail(NotFound);
    }
    var profile := found.value;
    if profile.requestsUsed >= profile.requestsLimit {
      return Fail(LimitExceeded(profile.requestsLimit, profile.requestsUsed));
    }
    var logged := db.CreateUsageLog(NormalisedLog(profile.id, req, now));
    var counted := db.IncrementRequestsUsed(profile.id);
    res := Ok(Usage(profile.requestsUsed + 1, profile.requestsLimit, profile.requestsLimit - profile.requestsUsed - 1));
  }

  /** The GET loop: each row's key, decoded, under its provider's name. */
  method DecodeRows(rows: seq<(Provider, ApiKey)>) returns (keys: map<string, seq<byte>>)
    requires forall i, j | 0 <= i < j < |rows| :: rows[i].0 != rows[j].0
    ensures forall n :: n in keys <==> exists j | 0 <= j < |rows| :: ProviderName(rows[j].0) == n
    ensures forall j | 0 <= j < |rows| :: keys[ProviderName(rows[j].0)] == ApiKeysRoute.DecryptKey(rows[j].1.encryptedKey)
  {
    keys := map[];
    for i := 0 to |rows|
      invariant forall n :: n in keys <==> exists j | 0 <= j < i :: ProviderName(rows[j].0) == n
      invariant forall j | 0 <= j < i :: keys[ProviderName(rows[j].0)] == ApiKeysRoute.DecryptKey(rows[j].1.encryptedKey)
    {
      forall j | 0 <= j < i
        ensures ProviderName(rows[j].0) != ProviderName(rows[i].0)
      {
        ProviderNameInjective(rows[j].0, rows[i].0);
      }
      keys := keys[ProviderName(rows[i].0) := ApiKeysRoute.DecryptKey(rows[i].1.encryptedKey)];
    }
  }

  /** The map the GET loop fills from the profile's key rows holds, under each
      provider's name, exactly the profile's stored keys, decoded. */
  lemma KeysOfRows(db: Db, id: string, rows: seq<(Provider, ApiKey)>, keys: map<string, seq<byte>>)
    requires rows == db.KeyRows(id)
    requires forall n :: n in keys <==> exists j | 0 <= j < |rows| :: ProviderName(rows[j].0) == n
    requires forall j | 0 <= j < |rows| :: keys[ProviderName(rows[j].0)] == ApiKeysRoute.DecryptKey(rows[j].1.encryptedKey)
    ensures forall p: Provider :: ProviderName(p) in keys <==> (id, p) in db.apiKeys
    ensures forall p: Provider | (id, p) in db.apiKeys ::
      keys[ProviderName(p)] == ApiKeysRoute.DecryptKey(db.apiKeys[(id, p)].encryptedKey)
    ensures forall n | n in keys :: ParseProvider(n).Some?
  {
    forall p: Provider
      ensures ProviderName(p) in keys <==> (id, p) in db.apiKeys
    {
      if (id, p) in db.apiKeys {
        db.KeyRowsComplete(id, p);
      }
      if ProviderName(p) in keys {
        var j :| 0 <= j < |rows| && ProviderName(rows[j].0) == ProviderName(p);
        ProviderNameInjective(rows[j].0, p);
      }
    }
    forall p: Provider | (id, p) in db.apiKeys
      ensures keys[ProviderName(p)] == ApiKeysRoute.DecryptKey(db.apiKeys[(id, p)].encryptedKey)
    {
      db.KeyRowsComplete(id, p);
    }
  }

  /** GET: the profile's usage snapshot and a provider-name to plaintext map,
      filled by decoding each of the profile's stored keys in turn. Nothing is
      written. */
  method Get(db: Db, email: string) returns (res: Response<AddonView>)
    requires db.Valid()
    ensures email == "" ==> res == Fail(BadRequest)
    ensures email != "" && !db.EmailTaken(email) ==> res == Fail(NotFound)
    ensures res.Ok? ==> db.EmailTaken(email) && res.body.id == db.OwnerOf(email)
    ensures res.Ok? ==> res.body.id in db.profiles && res.body.email == email
    ensures res.Ok? ==>
      var p := db.profiles[res.body.id];
      res.body.plan == p.plan && res.body.usage == Usage(p.requestsUsed, p.requestsLimit, p.requestsLimit - p.requestsUsed)
    ensures email != "" && db.EmailTaken(email) ==> res.Ok?
    ensures res.Ok? ==> forall p: Provider :: ProviderName(p) in res.body.apiKeys <==> (res.body.id, p) in db.apiKeys
    ensures res.Ok? ==> forall p: Provider | (res.body.id, p) in db.apiKeys ::
      res.body.apiKeys[ProviderName(p)] == ApiKeysRoute.DecryptKey(db.apiKeys[(res.body.id, p)].encryptedKey)
    ensures res.Ok? ==> forall n | n in res.body.apiKeys :: ParseProvider(n).Some?
  {
    if email == "" {
      return Fail(BadRequest);
    }
    var found := db.FindByEmail(email);
    if found.None? {
      return Fail(NotFound);
    }
    var profile := found.value;
    var rows := db.KeyRows(profile.id);
    var keys := DecodeRows(rows);
    KeysOfRows(db, profile.id, rows, keys);
    var usage := Usage(profile.requestsUsed, profile.requestsLimit, profile.requestsLimit - profile.requestsUsed);
    res := Ok(AddonView(profile.id, profile.email, profile.plan, usage, keys));
  }
}
