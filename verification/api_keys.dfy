/** The `/api/user/api-keys` handlers: list (masked), save (upsert) and delete a
    user's provider keys, stored base 64 encoded. */
module ApiKeysRoute {
  import opened Common
  import Base64
  import opened Store

  /** `encryptKey`: the key's bytes in base 64. Despite its name it is an
      encoding, and decoding recovers the key. */
  function EncryptKey(key: seq<byte>): (e: string)
    ensures Base64.Decode(e) == Some(key)
    ensures |e| == 4 * ((|key| + 2) / 3)
  {
    assert Base64.Decode(Base64.Encode(key)) == Some(key) by { Base64.RoundTrip(key); }
    Base64.Encode(key)
  }

  /** `decryptKey`: base 64 text back to the key's bytes. Text that is not
      canonical base 64 gives the empty key. */
  function DecryptKey(e: string): (key: seq<byte>)
    ensures Base64.Decode(e).Some? ==> EncryptKey(key) == e
    ensures Base64.Decode(e).None? ==> key == []
  {
    match Base64.Decode(e)
    case Some(k) =>
      assert Base64.Encode(k) == e by { Base64.Canonical(e); }
      k
    case None => []
  }

  lemma DecryptEncrypt(key: seq<byte>)
    ensures DecryptKey(EncryptKey(key)) == key
  {
  }

  /** The redaction character of a masked key. */
  const Bullet: char := '\U{2022}'

  function Bullets(n: nat): (s: string)
    ensures |s| == n && forall i | 0 <= i < n :: s[i] == Bullet
  {
    seq(n, _ => Bullet)
  }

  /** A byte of a key shown as the character with that code. */
  function Shown(bytes: seq<byte>): (s: string)
    ensures |s| == |bytes| && forall i | 0 <= i < |bytes| :: s[i] == bytes[i] as char
  {
    seq(|bytes|, i requires 0 <= i < |bytes| => bytes[i] as char)
  }

  /** `maskKey`: a short key is hidden entirely; a longer one shows its first
      four and last four characters around four bullets. */
  function MaskKey(key: seq<byte>): (m: string)
    ensures |key| <= 8 ==> |m| == 8 && forall i | 0 <= i < 8 :: m[i] == Bullet
    ensures |key| > 8 ==> |m| == 12
    ensures |key| > 8 ==> forall i | 0 <= i < 4 :: m[i] == key[i] as char
    ensures |key| > 8 ==> forall i | 4 <= i < 8 :: m[i] == Bullet
    ensures |key| > 8 ==> forall i | 8 <= i < 12 :: m[i] == key[|key| - 12 + i] as char
  {
    if |key| <= 8 then Bullets(8)
    else Shown(key[..4]) + Bullets(4) + Shown(key[|key| - 4..])
  }

  /** The mask depends on nothing but the first and last four bytes of a long
      key, and on nothing at all for a short one. */
  lemma MaskSeesOnlyEnds(k1: seq<byte>, k2: seq<byte>)
    requires || (|k1| <= 8 && |k2| <= 8)
             || (|k1| > 8 && |k2| > 8 && k1[..4] == k2[..4] && k1[|k1| - 4..] == k2[|k2| - 4..])
    ensures MaskKey(k1) == MaskKey(k2)
  {
  }

  /** One row of the key listing. */
  datatype MaskedKey = MaskedKey(provider: Provider, maskedKey: string, createdAt: int, updatedAt: int)

  /** The body of a successful save. */
  datatype SavedKey = SavedKey(provider: Provider, maskedKey: string)

  /** One listing entry per stored row: the row's provider, its decoded key
      masked, and its timestamps. */
  function Listing(rows: seq<(Provider, ApiKey)>): (l: seq<MaskedKey>)
    ensures |l| == |rows|
    ensures forall i | 0 <= i < |rows| :: l[i].provider == rows[i].0
    ensures forall i | 0 <= i < |rows| ::
      l[i] == MaskedKey(rows[i].0, MaskKey(DecryptKey(rows[i].1.encryptedKey)), rows[i].1.createdAt, rows[i].1.updatedAt)
  {
    seq(|rows|, i requires 0 <= i < |rows| =>
      MaskedKey(rows[i].0, MaskKey(DecryptKey(rows[i].1.encryptedKey)), rows[i].1.createdAt, rows[i].1.updatedAt))
  }

  /** GET: the caller's keys, each masked after decoding, at most one per
      provider; keys of other users are never listed. */
  method Get(db: Db, user: Option<string>) returns (res: Response<seq<MaskedKey>>)
    requires db.Valid()
    ensures user.None? <==> res == Fail(Unauthorized)
    ensures user.Some? ==> res.Ok?
    ensures user.Some? ==> forall p: Provider ::
      (exists i | 0 <= i < |res.body| :: res.body[i].provider == p) <==> (user.value, p) in db.apiKeys
    ensures user.Some? ==> forall i | 0 <= i < |res.body| ::
      && (user.value, res.body[i].provider) in db.apiKeys
      && var row := db.apiKeys[(user.value, res.body[i].provider)];
         res.body[i] == MaskedKey(res.body[i].provider, MaskKey(DecryptKey(row.encryptedKey)), row.createdAt, row.updatedAt)
    ensures user.Some? ==> forall i, j | 0 <= i < j < |res.body| :: res.body[i].provider != res.body[j].provider
  {
    if user.None? {
      return Fail(Unauthorized);
    }
    var uid := user.value;
    var rows := db.KeyRows(uid);
    forall p: Provider | (uid, p) in db.apiKeys
      ensures exists i | 0 <= i < |rows| :: rows[i].0 == p
    {
      db.KeyRowsComplete(uid, p);
    }
    res := Ok(Listing(rows));
  }

  /** Every stored key text is well-formed base 64, so decrypting a stored
      key never falls back to the empty key. */
  ghost predicate StoredKeysDecode(db: Db)
    reads db
  {
    forall k | k in db.apiKeys :: Base64.Decode(db.apiKeys[k].encryptedKey).Some?
  }

  /** POST: validate the body, then upsert the encoded key under (user, provider).
      A missing field or a provider outside the allow-list is a 400; a user
      without a profile violates the key table's foreign key (500). */
  method Post(db: Db, user: Option<string>, provider: string, apiKey: seq<byte>, now: int)
    returns (res: Response<SavedKey>)
    requires db.Valid()
    modifies db
    ensures db.Valid()
    ensures old(StoredKeysDecode(db)) ==> StoredKeysDecode(db)
    ensures user.None? ==> res == Fail(Unauthorized)
    ensures user.Some? && (provider == "" || apiKey == []) ==> res == Fail(BadRequest)
    ensures user.Some? && ParseProvider(provider).None? ==> res == Fail(BadRequest)
    ensures res.Fail? ==> unchanged(db)
    ensures user.Some? && ParseProvider(provider).Some? && apiKey != [] ==>
      var k := (user.value, ParseProvider(provider).value);
      if user.value !in old(db.profiles) then res == Fail(InternalError)
      else
        && res == Ok(SavedKey(k.1, MaskKey(apiKey)))
        && db.apiKeys == old(db.apiKeys)[k := UpsertedRow(old(db.apiKeys), k, EncryptKey(apiKey), now)]
        && DecryptKey(db.apiKeys[k].encryptedKey) == apiKey
        && db.profiles == old(db.profiles) && db.usageLogs == old(db.usageLogs)
  {
    if user.None? {
      return Fail(Unauthorized);
    }
    if provider == "" || apiKey == [] {
      return Fail(BadRequest);
    }
    var p := ParseProvider(provider);
    if p.None? {
      return Fail(BadRequest);
    }
    var ok := db.UpsertApiKey(user.value, p.value, EncryptKey(apiKey), now);
    if !ok {
      return Fail(InternalError);
    }
    res := Ok(SavedKey(p.value, MaskKey(apiKey)));
  }

  /** DELETE: remove the (user, provider) row. Deleting a row that does not
      exist makes the store throw, which the handler reports as a 500. */
  method Delete(db: Db, user: Option<string>, provider: string) returns (res: Response<()>)
    requires db.Valid()
    modifies db
    ensures db.Valid()
    ensures old(StoredKeysDecode(db)) ==> StoredKeysDecode(db)
    ensures user.None? ==> res == Fail(Unauthorized)
    ensures user.Some? && provider == "" ==> res == Fail(BadRequest)
    ensures res.Fail? ==> unchanged(db)
    ensures user.Some? && provider != "" ==>
      var p := ParseProvider(provider);
      if p.Some? && (user.value, p.value) in old(db.apiKeys) then
        && res == Ok(())
        && db.apiKeys == old(db.apiKeys) - {(user.value, p.value)}
        && db.profiles == old(db.profiles) && db.usageLogs == old(db.usageLogs)
      else res == Fail(InternalError)
  {
    if user.None? {
      return Fail(Unauthorized);
    }
    if provider == "" {
      return Fail(BadRequest);
    }
    var p := ParseProvider(provider);
    if p.None? {
      return Fail(InternalError);
    }
    var ok := db.DeleteApiKey(user.value, p.value);
    if !ok {
      return Fail(InternalError);
    }
    res := Ok(());
  }

  /** What a save followed by a listing shows: the listing masks the decoded
      stored key exactly as the save's response masked the raw key. */
  lemma SavedKeyListsSameMask(rows: map<(string, Provider), ApiKey>, k: (string, Provider), apiKey: seq<byte>, now: int)
    ensures var after := rows[k := UpsertedRow(rows, k, EncryptKey(apiKey), now)];
            MaskKey(DecryptKey(after[k].encryptedKey)) == MaskKey(apiKey)
  {
    DecryptEncrypt(apiKey);
  }
}
