/** The persistence layer the handlers talk to, as an in-memory store: profiles
    by id, provider keys by (user id, provider) and the append-only usage log.
    Each method is one store call a handler makes; a call the database rejects
    (a missing row, a unique or foreign-key violation) returns false and changes
    nothing, and the handler reports it as an internal error. */
module Store {
  import opened Common

  /** The row an upsert leaves under `k`: an existing row keeps its creation
      time and takes the new payload and update time; otherwise a new row. */
  function UpsertedRow(rows: map<(string, Provider), ApiKey>, k: (string, Provider), encryptedKey: string, now: int): (row: ApiKey)
    ensures row.encryptedKey == encryptedKey && row.updatedAt == now
    ensures row.createdAt == if k in rows then rows[k].createdAt else now
  {
    if k in rows then rows[k].(encryptedKey := encryptedKey, updatedAt := now)
    else ApiKey(encryptedKey, now, now)
  }

  /** Upserting the same payload at the same time twice leaves the table as
      the first upsert left it. */
  lemma UpsertIdempotent(rows: map<(string, Provider), ApiKey>, k: (string, Provider), encryptedKey: string, now: int)
    ensures var once := rows[k := UpsertedRow(rows, k, encryptedKey, now)];
            once[k := UpsertedRow(once, k, encryptedKey, now)] == once
  {
    var once := rows[k := UpsertedRow(rows, k, encryptedKey, now)];
    assert UpsertedRow(once, k, encryptedKey, now) == once[k];
  }

  class Db {
    var profiles: map<string, Profile>
    var apiKeys: map<(string, Provider), ApiKey>
    var usageLogs: seq<UsageLog>

    /** The constraints the database enforces: a profile is stored under its own
        id, emails and connect tokens are unique, and keys and logs belong to an
        existing profile. */
    ghost predicate Valid()
      reads this
    {
      && (forall id | id in profiles :: profiles[id].id == id)
      && (forall a, b | a in profiles && b in profiles && a != b :: profiles[a].email != profiles[b].email)
      && (forall a, b | a in profiles && b in profiles && a != b && profiles[a].connectToken.Some? ::
            profiles[a].connectToken != profiles[b].connectToken)
      && (forall k | k in apiKeys :: k.0 in profiles)
      && (forall i | 0 <= i < |usageLogs| :: usageLogs[i].userId in profiles)
    }

    constructor ()
      ensures Valid()
      ensures profiles == map[] && apiKeys == map[] && usageLogs == []
    {
      profiles, apiKeys, usageLogs := map[], map[], [];
    }

    predicate EmailTaken(email: string)
      reads this
    {
      exists id | id in profiles :: profiles[id].email == email
    }

    /** Whether a profile other than `id` already holds `token`. */
    predicate TokenHeldByOther(id: string, token: string)
      reads this
    {
      exists other | other in profiles :: other != id && profiles[other].connectToken == Some(token)
    }

    /** The id of the profile with a given email; it is unique by `Valid()`. */
    ghost function OwnerOf(email: string): (id: string)
      reads this
      requires EmailTaken(email)
      ensures id in profiles && profiles[id].email == email
    {
      var id :| id in profiles && profiles[id].email == email; id
    }

    /** `profile.findUnique({ where: { email } })`. */
    method FindByEmail(email: string) returns (r: Option<Profile>)
      requires Valid()
      ensures r.None? <==> !EmailTaken(email)
      ensures r.Some? ==> r.value.id == OwnerOf(email) && r.value.id in profiles && profiles[r.value.id] == r.value
      ensures r.Some? ==> r.value.email == email
    {
      if id :| id in profiles && profiles[id].email == email {
        r := Some(profiles[id]);
      } else {
        r := None;
      }
    }

    /** `profile.create`: rejected when the id, the email or the token is taken. */
    method CreateProfile(p: Profile) returns (ok: bool)
      requires Valid()
      modifies this
      ensures Valid()
      ensures !ok ==> unchanged(this)
      ensures ok <==> old(p.id !in profiles && !EmailTaken(p.email)
                          && (p.connectToken.None? || !TokenHeldByOther(p.id, p.connectToken.value)))
      ensures profiles == if ok then old(profiles)[p.id := p] else old(profiles)
      ensures apiKeys == old(apiKeys) && usageLogs == old(usageLogs)
    {
      ok := p.id !in profiles && !EmailTaken(p.email)
            && (p.connectToken.None? || !TokenHeldByOther(p.id, p.connectToken.value));
      if ok {
        profiles := profiles[p.id := p];
      }
    }

    /** `profile.update({ data: { requestsUsed: { increment: 1 } } })`. */
    method IncrementRequestsUsed(id: string) returns (ok: bool)
      requires Valid()
      modifies this
      ensures Valid()
      ensures !ok ==> unchanged(this)
      ensures ok <==> id in old(profiles)
      ensures profiles == if ok
        then old(profiles)[id := old(profiles[id]).(requestsUsed := old(profiles[id]).requestsUsed + 1)]
        else old(profiles)
      ensures apiKeys == old(apiKeys) && usageLogs == old(usageLogs)
    {
      ok := id in profiles;
      if ok {
        var p := profiles[id];
        profiles := profiles[id := p.(requestsUsed := p.requestsUsed + 1)];
      }
    }

    /** `profile.update({ data: { connectToken } })`: rejected for a missing row
        or a token another profile holds. */
    method SetConnectToken(id: string, token: string) returns (ok: bool)
      requires Valid()
      modifies this
      ensures Valid()
      ensures !ok ==> unchanged(this)
      ensures ok <==> id in old(profiles) && !old(TokenHeldByOther(id, token))
      ensures profiles == if ok
        then old(profiles)[id := old(profiles[id]).(connectToken := Some(token))]
        else old(profiles)
      ensures apiKeys == old(apiKeys) && usageLogs == old(usageLogs)
    {
      ok := id in profiles && !TokenHeldByOther(id, token);
      if ok {
        profiles := profiles[id := profiles[id].(connectToken := Some(token))];
      }
    }

    /** `apiKey.upsert` on the (userId, provider) unique key: an existing row
        gets the new payload and update time, otherwise a row is created. */
    method UpsertApiKey(userId: string, provider: Provider, encryptedKey: string, now: int) returns (ok: bool)
      requires Valid()
      modifies this
      ensures Valid()
      ensures !ok ==> unchanged(this)
      ensures ok <==> userId in old(profiles)
      ensures apiKeys == if !ok then old(apiKeys)
        else old(apiKeys)[(userId, provider) := UpsertedRow(old(apiKeys), (userId, provider), encryptedKey, now)]
      ensures profiles == old(profiles) && usageLogs == old(usageLogs)
    {
      ok := userId in profiles;
      if ok {
        var k := (userId, provider);
        apiKeys := apiKeys[k := UpsertedRow(apiKeys, k, encryptedKey, now)];
      }
    }

    /** `apiKey.delete` on the (userId, provider) unique key: rejected when no
        such row exists. */
    method DeleteApiKey(userId: string, provider: Provider) returns (ok: bool)
      requires Valid()
      modifies this
      ensures Valid()
      ensures !ok ==> unchanged(this)
      ensures ok <==> (userId, provider) in old(apiKeys)
      ensures apiKeys == if ok then old(apiKeys) - {(userId, provider)} else old(apiKeys)
      ensures profiles == old(profiles) && usageLogs == old(usageLogs)
    {
      ok := (userId, provider) in apiKeys;
      if ok {
        apiKeys := apiKeys - {(userId, provider)};
      }
    }

    /** `usageLog.create`. */
    method CreateUsageLog(log: UsageLog) returns (ok: bool)
      requires Valid()
      modifies this
      ensures Valid()
      ensures !ok ==> unchanged(this)
      ensures ok <==> log.userId in old(profiles)
      ensures usageLogs == if ok then old(usageLogs) + [log] else old(usageLogs)
      ensures profiles == old(profiles) && apiKeys == old(apiKeys)
    {
      ok := log.userId in profiles;
      if ok {
        usageLogs := usageLogs + [log];
      }
    }

    /** The key rows of one user, in provider order (`include: { apiKeys: true }`). */
    function KeyRows(userId: string): (rows: seq<(Provider, ApiKey)>)
      reads this
      ensures forall i | 0 <= i < |rows| :: (userId, rows[i].0) in apiKeys && apiKeys[(userId, rows[i].0)] == rows[i].1
      ensures forall i, j | 0 <= i < j < |rows| :: rows[i].0 != rows[j].0
    {
      KeyRow(userId, OpenAI) + KeyRow(userId, Anthropic) + KeyRow(userId, Gemini)
    }

    /** Every key of the user has a row. */
    lemma KeyRowsComplete(userId: string, p: Provider)
      requires (userId, p) in apiKeys
      ensures exists i | 0 <= i < |KeyRows(userId)| :: KeyRows(userId)[i].0 == p
    {
      var a, b, c := KeyRow(userId, OpenAI), KeyRow(userId, Anthropic), KeyRow(userId, Gemini);
      assert KeyRows(userId) == a + b + c;
      match p
      case OpenAI => assert (a + b + c)[0].0 == p;
      case Anthropic => assert (a + b + c)[|a|].0 == p;
      case Gemini => assert (a + b + c)[|a| + |b|].0 == p;
    }

    /** The row of one provider's key, if the user has one. */
    function KeyRow(userId: string, p: Provider): (row: seq<(Provider, ApiKey)>)
      reads this
      ensures |row| == if (userId, p) in apiKeys then 1 else 0
      ensures forall i | 0 <= i < |row| :: row[i] == (p, apiKeys[(userId, p)])
    {
      if (userId, p) in apiKeys then [(p, apiKeys[(userId, p)])] else []
    }
  }
}
