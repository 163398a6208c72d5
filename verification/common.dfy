/** Shared vocabulary of the Easyworks API: the persisted records, the
    request outcomes and the small helpers several handlers use. */
module Common {

  datatype Option<+T> = None | Some(value: T)

  /** One byte of a key, a token or a decoded payload. */
  type byte = b: int | 0 <= b < 256

  /** The AI providers a key may be stored for (the `api_keys.provider` column). */
  datatype Provider = OpenAI | Anthropic | Gemini

  /** Subscription plan of a profile. */
  datatype Plan = Free | Pro | Team | Enterprise

  /** Outcome recorded in a usage log. */
  datatype Status = Success | Failed

  function ProviderName(p: Provider): string {
    match p
    case OpenAI => "openai"
    case Anthropic => "anthropic"
    case Gemini => "gemini"
  }

  /** The allow-list check on a provider name coming from a request body. */
  function ParseProvider(s: string): (r: Option<Provider>)
    ensures r.Some? <==> s in {"openai", "anthropic", "gemini"}
    ensures r.Some? ==> ProviderName(r.value) == s
  {
    if s == "openai" then Some(OpenAI)
    else if s == "anthropic" then Some(Anthropic)
    else if s == "gemini" then Some(Gemini)
    else None
  }

  lemma ProviderNameInjective(p: Provider, q: Provider)
    ensures ProviderName(p) == ProviderName(q) ==> p == q
  {
    if ProviderName(p) == ProviderName(q) {
      assert ParseProvider(ProviderName(p)) == ParseProvider(ProviderName(q));
    }
  }

  /** A user profile; timestamps are integer milliseconds. */
  datatype Profile = Profile(
    id: string,
    email: string,
    fullName: Option<string>,
    avatarUrl: Option<string>,
    plan: Plan,
    requestsUsed: int,
    requestsLimit: int,
    billingCycleStart: Option<int>,
    connectToken: Option<string>,
    createdAt: int)

  /** A stored provider key; the (user, provider) pair it belongs to is its key in the store. */
  datatype ApiKey = ApiKey(encryptedKey: string, createdAt: int, updatedAt: int)

  /** One metered addon call. */
  datatype UsageLog = UsageLog(
    userId: string,
    action: string,
    provider: string,
    model: string,
    rowsProcessed: int,
    status: Status,
    createdAt: int)

  /** The identity assertion the auth provider hands to a handler; an absent
      metadata field is the empty string. */
  datatype AuthUser = AuthUser(
    id: string,
    email: string,
    metaFullName: string,
    metaName: string,
    metaAvatarUrl: string,
    metaPicture: string)

  /** The error responses of the route handlers, by HTTP status. */
  datatype HttpError =
    | BadRequest                          // 400
    | Unauthorized                        // 401
    | NotFound                            // 404
    | LimitExceeded(limit: int, used: int) // 429
    | InternalError                       // 500

  datatype Response<+T> = Ok(body: T) | Fail(error: HttpError)

  /** JavaScript's `s || d` on a string: the empty string is falsy. */
  function OrDefault(s: string, d: string): string {
    if s == "" then d else s
  }

  /** JavaScript's `a || b || null` on two optional strings. */
  function FirstPresent(a: string, b: string): (r: Option<string>)
    ensures r.Some? ==> r.value != "" && (r.value == a || r.value == b)
    ensures r.None? <==> a == "" && b == ""
    ensures a != "" ==> r == Some(a)
  {
    if a != "" then Some(a) else if b != "" then Some(b) else None
  }

  /** Milliseconds in a day. */
  const DayMs: int := 24 * 60 * 60 * 1000

  /** Free-tier request allowance given to every new profile. */
  const DefaultRequestsLimit: int := 100

  /** The record both the OAuth callback and the profile handler insert for a
      first-time user. */
  function NewProfile(user: AuthUser, now: int): (p: Profile)
    ensures p.id == user.id && p.email == user.email
    ensures p.requestsUsed == 0 && p.requestsLimit == DefaultRequestsLimit
    ensures p.requestsUsed <= p.requestsLimit
    ensures p.billingCycleStart == Some(now) && p.createdAt == now
    ensures p.connectToken.None? && p.plan == Free
    ensures p.fullName.Some? <==> user.metaFullName != "" || user.metaName != ""
    ensures p.avatarUrl.Some? <==> user.metaAvatarUrl != "" || user.metaPicture != ""
    ensures user.metaFullName != "" ==> p.fullName == Some(user.metaFullName)
    ensures user.metaAvatarUrl != "" ==> p.avatarUrl == Some(user.metaAvatarUrl)
    ensures user.metaFullName == "" && user.metaName != "" ==> p.fullName == Some(user.metaName)
    ensures user.metaAvatarUrl == "" && user.metaPicture != "" ==> p.avatarUrl == Some(user.metaPicture)
  {
    Profile(
      user.id,
      user.email,
      FirstPresent(user.metaFullName, user.metaName),
      FirstPresent(user.metaAvatarUrl, user.metaPicture),
      Free,
      0,
      DefaultRequestsLimit,
      Some(now),
      None,
      now)
  }

  /** Decimal rendering of a natural number, as JavaScript's template strings print it. */
  function Decimal(n: nat): (s: string)
    decreases n
  {
    if n < 10 then [DigitChar(n)] else Decimal(n / 10) + [DigitChar(n % 10)]
  }

  function DigitChar(d: nat): char
    requires d < 10
  {
    ('0' as int + d) as char
  }

  /** Reads back a string of decimal digits. */
  function DecimalValue(s: string): (r: Option<nat>)
    decreases |s|
  {
    if s == [] then None
    else if !('0' <= s[|s| - 1] <= '9') then None
    else
      var d := s[|s| - 1] as int - '0' as int;
      if |s| == 1 then Some(d)
      else match DecimalValue(s[..|s| - 1])
        case None => None
        case Some(v) => Some(10 * v + d)
  }

  /** Rendering a number and reading it back gives the number, so distinct
      counts print as distinct labels. */
  lemma {:induction false} DecimalRoundTrip(n: nat)
    ensures |Decimal(n)| > 0
    ensures DecimalValue(Decimal(n)) == Some(n)
    decreases n
  {
    if n >= 10 {
      DecimalRoundTrip(n / 10);
      var s := Decimal(n);
      assert s[..|s| - 1] == Decimal(n / 10);
    }
  }
}
