/** The `/api/user/connect-token` handlers: the token the addon presents to
    link itself to an account. A token is sixteen random bytes in lowercase
    hexadecimal; GET hands out the stored one (creating it on first use),
    POST replaces it. */
module ConnectTokenRoute {
  import opened Common
  import opened Store

  /** Number of random bytes behind a token. */
  const TokenBytes: nat := 16

  function HexDigit(v: int): (c: char)
    requires 0 <= v < 16
    ensures IsHexDigit(c)
  {
    if v < 10 then ('0' as int + v) as char else ('a' as int + (v - 10)) as char
  }

  predicate IsHexDigit(c: char) {
    '0' <= c <= '9' || 'a' <= c <= 'f'
  }

  /** The value of a lowercase hexadecimal digit. */
  function HexValue(c: char): (r: Option<int>)
    ensures r.Some? <==> IsHexDigit(c)
    ensures r.Some? ==> 0 <= r.value < 16 && HexDigit(r.value) == c
  {
    if '0' <= c <= '9' then Some(c as int - '0' as int)
    else if 'a' <= c <= 'f' then Some(c as int - 'a' as int + 10)
    else None
  }

  /** `Buffer.toString('hex')`: two lowercase digits per byte, high nibble first. */
  function HexEncode(s: seq<byte>): (h: string)
    ensures |h| == 2 * |s|
    ensures forall i | 0 <= i < |h| :: IsHexDigit(h[i])
  {
    if s == [] then []
    else [HexDigit(s[0] / 16), HexDigit(s[0] % 16)] + HexEncode(s[1..])
  }

  /** Reads lowercase hexadecimal text back into bytes. */
  function HexDecode(h: string): Option<seq<byte>>
    decreases |h|
  {
    if h == [] then Some([])
    else if |h| == 1 then None
    else match (HexValue(h[0]), HexValue(h[1]), HexDecode(h[2..]))
      case (Some(hi), Some(lo), Some(rest)) => Some([hi * 16 + lo] + rest)
      case _ => None
  }

  lemma {:induction false} HexRoundTrip(s: seq<byte>)
    ensures HexDecode(HexEncode(s)) == Some(s)
  {
    if s != [] {
      var h := HexEncode(s);
      HexRoundTrip(s[1..]);
      assert h[2..] == HexEncode(s[1..]);
      assert [s[0]] + s[1..] == s;
    }
  }

  /** Distinct random bytes give distinct tokens. */
  lemma HexInjective(a: seq<byte>, b: seq<byte>)
    ensures HexEncode(a) == HexEncode(b) ==> a == b
  {
    HexRoundTrip(a);
    HexRoundTrip(b);
  }

  /** The shape of every token this route issues. */
  predicate IsToken(t: string) {
    |t| == 2 * TokenBytes && forall i | 0 <= i < |t| :: IsHexDigit(t[i])
  }

  /** `generateToken`, with the sixteen random bytes as a parameter. */
  function GenerateToken(random: seq<byte>): (t: string)
    requires |random| == TokenBytes
    ensures IsToken(t) && t != ""
    ensures HexDecode(t) == Some(random)
  {
    HexRoundTrip(random);
    HexEncode(random)
  }

  /** The token GET serves: the stored one unless it is absent or empty, else
      the freshly generated one. */
  function ServedToken(stored: Option<string>, generated: string): (t: string)
    ensures stored.Some? && stored.value != "" ==> t == stored.value
    ensures stored.None? || stored.value == "" ==> t == generated
  {
    if stored.Some? && stored.value != "" then stored.value else generated
  }

  /** Once GET has stored a token, a later GET serves the same one whatever
      it would have generated. */
  lemma ServedTokenStable(stored: Option<string>, generated: string, later: string)
    requires generated != ""
    ensures ServedToken(Some(ServedToken(stored, generated)), later) == ServedToken(stored, generated)
  {
  }

  /** GET: the caller's token, generated and stored on first use. A generated
      token another profile already holds violates the unique column (500). */
  method Get(db: Db, user: Option<string>, random: seq<byte>) returns (res: Response<string>)
    requires db.Valid() && |random| == TokenBytes
    modifies db
    ensures db.Valid()
    ensures user.None? ==> res == Fail(Unauthorized)
    ensures user.Some? && user.value !in old(db.profiles) ==> res == Fail(NotFound)
    ensures res.Fail? ==> unchanged(db)
    ensures user.Some? && user.value in old(db.profiles) ==>
      var stored := old(db.profiles)[user.value].connectToken;
      var t := ServedToken(stored, GenerateToken(random));
      if stored.Some? && stored.value != "" then res == Ok(t) && unchanged(db)
      else if old(db.TokenHeldByOther(user.value, t)) then res == Fail(InternalError)
      else
        && res == Ok(t)
        && db.profiles == old(db.profiles)[user.value := old(db.profiles)[user.value].(connectToken := Some(t))]
        && db.apiKeys == old(db.apiKeys) && db.usageLogs == old(db.usageLogs)
    // what makes GET stable: the token served is the token now stored, and it is not empty
    ensures res.Ok? ==> user.Some? && user.value in db.profiles && db.profiles[user.value].connectToken == Some(res.body) && res.body != ""
  {
    if user.None? {
      return Fail(Unauthorized);
    }
    var id := user.value;
    if id !in db.profiles {
      return Fail(NotFound);
    }
    var token := db.profiles[id].connectToken;
    if token.Some? && token.value != "" {
      return Ok(token.value);
    }
    var generated := GenerateToken(random);
    var ok := db.SetConnectToken(id, generated);
    if !ok {
      return Fail(InternalError);
    }
    res := Ok(generated);
  }

  /** POST: replace the caller's token with a generated one. Updating a missing
      profile, or a token another profile holds, makes the store throw (500). */
  method Post(db: Db, user: Option<string>, random: seq<byte>) returns (res: Response<string>)
    requires db.Valid() && |random| == TokenBytes
    modifies db
    ensures db.Valid()
    ensures user.None? ==> res == Fail(Unauthorized)
    ensures res.Fail? ==> unchanged(db)
    ensures user.Some? ==>
      var t := GenerateToken(random);
      if user.value !in old(db.profiles) || old(db.TokenHeldByOther(user.value, t)) then res == Fail(InternalError)
      else
        && res == Ok(t)
        && db.profiles == old(db.profiles)[user.value := old(db.profiles)[user.value].(connectToken := Some(t))]
        && db.apiKeys == old(db.apiKeys) && db.usageLogs == old(db.usageLogs)
    ensures res.Ok? ==> IsToken(res.body)
  {
    if user.None? {
      return Fail(Unauthorized);
    }
    var token := GenerateToken(random);
    var ok := db.SetConnectToken(user.value, token);
    if !ok {
      return Fail(InternalError);
    }
    res := Ok(token);
  }
}
