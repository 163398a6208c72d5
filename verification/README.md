# Easyworks API and dashboard logic, in Dafny

This project models the server side of Easyworks, a web service behind a
spreadsheet addon that calls AI providers. It also models the small pieces of
logic in the dashboard pages. The parts modelled:

- the addon sync endpoint, which meters one AI request against a profile's
  monthly allowance and hands the addon its provider keys;
- the provider-key endpoints: list masked, save (upsert), delete;
- the connect-token endpoints: get-or-create and regenerate;
- the profile endpoint: get-or-create, plus the days left in the 30-day billing cycle;
- the usage report: the twenty newest logs, this month's counts grouped by
  status, and the change against last month;
- the OAuth callback: profile creation and the redirect;
- the dashboard's relative timestamps, provider-key lookup and recent-activity
  list, and the usage page's success rate.

The database is the class `Store.Db`. It holds profiles by id, keys by
(user id, provider) and the usage log as a sequence. Each database write a
handler makes is one method of the class, and its contract states the new
state exactly. Reads are map lookups by id in the handlers, the lookup by
email `FindByEmail` (a method of the class), or functions of the class
(`KeyRows` for the included key rows) and of the usage module (the usage
queries over the log). `Db.Valid()` holds the constraints the database enforces:

- emails are unique;
- connect tokens are unique;
- keys and logs belong to an existing profile.

A call that breaks one of these changes nothing and returns false. The
handler then answers 500, as its `catch` block does; the OAuth callback
instead logs the error and redirects as on success. Handlers that touch
the store are module-level methods that take a `Db`. Pure helpers and the
read-only usage report are functions.

Inputs the handlers get from outside are parameters:

- the authenticated user (`Option`, `None` for a missing session);
- the request fields; a missing or falsy string is `""`, a missing
  `rowsProcessed` is 0;
- the random bytes of a token;
- the current time, in integer milliseconds;
- the month boundaries;
- the site URL.

Key material is a byte sequence. The "encryption" of stored keys is base 64
as in section 4 of RFC 4648, in `Base64`. Decoding is proved to undo
encoding, and every text the decoder accepts is proved to be the encoding of
what it yields.

## Model

| member | source | states |
|---|---|---|
| Common.ParseProvider | src/app/api/user/api-keys/route.ts:63-65 | only "openai", "anthropic" and "gemini" are accepted, and each maps back to its own name |
| Common.ProviderNameInjective | src/lib/supabase.ts:59 | distinct providers have distinct names |
| Common.FirstPresent | src/app/api/user/profile/route.ts:33-34 | `a \|\| b \|\| null`: the first non-empty of two strings, none when both are empty |
| Common.NewProfile | src/app/api/user/profile/route.ts:29-38 | a first-time profile takes the user's id and email, 0 of 100 requests used, a billing cycle starting now, the name as full_name, else name, else none, the avatar as avatar_url, else picture, else none, no token and the Free plan |
| Common.DecimalRoundTrip | src/app/dashboard/page.tsx:200-202 | the decimal rendering of a count reads back as that count, so distinct counts print differently |
| Base64.SextetValue | src/app/api/user/api-keys/route.ts:10-12 | a character of the base 64 alphabet maps to the value the alphabet gives it |
| Base64.Encode | src/app/api/user/api-keys/route.ts:6-8 | the encoding has 4 characters per started group of 3 bytes |
| Base64.GroupRoundTrip | src/app/api/user/api-keys/route.ts:6-12 | a full group of three bytes decodes back from its four characters |
| Base64.StepRoundTrip | src/app/api/user/api-keys/route.ts:6-12 | a full group in front of a text that round-trips still round-trips |
| Base64.RoundTrip | src/app/api/user/api-keys/route.ts:6-12 | decoding the encoding of any byte string gives it back |
| Base64.GroupCanonical | src/app/api/user/api-keys/route.ts:10-12 | four alphabet characters are the encoding of the three bytes they decode to |
| Base64.Canonical | src/app/api/user/api-keys/route.ts:10-12 | every accepted text is the encoding of what it decodes to |
| Store.UpsertedRow | src/app/api/user/api-keys/route.ts:68-83 | an upsert gives the row the new key and update time, and keeps an existing row's creation time |
| Store.UpsertIdempotent | src/app/api/user/api-keys/route.ts:68-83 | saving the same key twice at the same time leaves the table as saving it once |
| Store.Db.OwnerOf | src/app/api/addon/sync/route.ts:16-21 | the profile owning an email that is taken |
| Store.Db.FindByEmail | src/app/api/addon/sync/route.ts:16-21 | the lookup by the unique email finds the stored profile with that email, or none exactly when no profile has it |
| Store.Db.CreateProfile | src/app/api/user/profile/route.ts:29-47 | the insert succeeds exactly when the id, email and token are free, and then adds just that profile |
| Store.Db.IncrementRequestsUsed | src/app/api/addon/sync/route.ts:49-54 | the update raises one profile's counter by one and fails on a missing profile |
| Store.Db.SetConnectToken | src/app/api/user/connect-token/route.ts:33-36 | the update stores the token unless the profile is missing or another profile holds it |
| Store.Db.UpsertApiKey | src/app/api/user/api-keys/route.ts:68-83 | the upsert writes the (user, provider) row, and fails for a user without a profile |
| Store.Db.DeleteApiKey | src/app/api/user/api-keys/route.ts:112-119 | the delete removes exactly the (user, provider) row, and fails when there is none |
| Store.Db.CreateUsageLog | src/app/api/addon/sync/route.ts:37-46 | the insert appends the log, and fails for a user without a profile |
| Store.Db.KeyRows | src/app/api/addon/sync/route.ts:80-85 | the included key rows are the user's stored keys, one per provider |
| Store.Db.KeyRowsComplete | src/app/api/addon/sync/route.ts:80-85 | every stored key of the user is among the included rows |
| ApiKeysRoute.EncryptKey | src/app/api/user/api-keys/route.ts:6-8 | the stored text decodes back to the key |
| ApiKeysRoute.DecryptKey | src/app/api/user/api-keys/route.ts:10-12 | decoding inverts the stored encoding; malformed text gives the empty key |
| ApiKeysRoute.DecryptEncrypt | src/app/api/user/api-keys/route.ts:6-12 | decrypting an encrypted key gives the key |
| ApiKeysRoute.MaskKey | src/app/api/user/api-keys/route.ts:14-17 | a key of at most 8 characters becomes 8 bullets; a longer one its first 4 characters, 4 bullets and its last 4 |
| ApiKeysRoute.MaskSeesOnlyEnds | src/app/api/user/api-keys/route.ts:14-17 | the mask depends only on the first and last four characters of a long key |
| ApiKeysRoute.Listing | src/app/api/user/api-keys/route.ts:33-39 | one entry per row, with the row's provider, its decoded key masked, and its timestamps |
| ApiKeysRoute.Get | src/app/api/user/api-keys/route.ts:19-46 | 401 without a session; otherwise the list holds an entry for a provider exactly when the caller stored a key for it, masked from that key, one per provider |
| ApiKeysRoute.Post | src/app/api/user/api-keys/route.ts:48-95 | 401; 400 for a missing field or a provider outside the allow-list; 500 without a profile; otherwise the row is upserted, decodes to the key, and the response carries the key's mask; failures change nothing; every stored key text still decodes |
| ApiKeysRoute.Delete | src/app/api/user/api-keys/route.ts:97-126 | 401; 400 for a missing provider; exactly the caller's row is removed when it exists, otherwise 500 and nothing changes; every stored key text still decodes |
| ApiKeysRoute.SavedKeyListsSameMask | src/app/api/user/api-keys/route.ts:33-39 | after a save, the listing masks the stored key exactly as the save's response masked it |
| AddonSyncRoute.NormalisedLog | src/app/api/addon/sync/route.ts:37-46 | the logged labels are the request's or 'AI Request'/'unknown'/'unknown' when absent, and the status is success exactly when the request says "success" |
| AddonSyncRoute.Post | src/app/api/addon/sync/route.ts:7-68 | 400 without an email and 404 for an unknown one, store unchanged; 429 with the limit and count at the limit, store unchanged; otherwise one log appended, the counter up by exactly one, nothing else changed, and used/limit/remaining reported; used <= limit is preserved for every profile |
| AddonSyncRoute.DecodeRows | src/app/api/addon/sync/route.ts:92-95 | the loop's map has a provider's name exactly when a row has that provider, holding that row's key decoded |
| AddonSyncRoute.KeysOfRows | src/app/api/addon/sync/route.ts:80-95 | over the profile's included rows, the map names exactly the providers the profile stored keys for, and every name is a provider's |
| AddonSyncRoute.Get | src/app/api/addon/sync/route.ts:71-112 | 400/404 as for POST; otherwise the usage snapshot of the profile that owns the email, and a map with a provider's name exactly when the profile stored a key for it, holding that key decoded |
| ConnectTokenRoute.HexValue | src/app/api/user/connect-token/route.ts:7 | a lowercase hex digit maps to its value |
| ConnectTokenRoute.HexEncode | src/app/api/user/connect-token/route.ts:7 | two lowercase hex digits per byte |
| ConnectTokenRoute.HexRoundTrip | src/app/api/user/connect-token/route.ts:7 | the hex text reads back as the bytes |
| ConnectTokenRoute.HexInjective | src/app/api/user/connect-token/route.ts:6-8 | distinct random bytes give distinct tokens |
| ConnectTokenRoute.GenerateToken | src/app/api/user/connect-token/route.ts:6-8 | a token is 32 lowercase hex digits that encode the 16 random bytes |
| ConnectTokenRoute.ServedToken | src/app/api/user/connect-token/route.ts:28-37 | a stored non-empty token is served, otherwise the generated one |
| ConnectTokenRoute.ServedTokenStable | src/app/api/user/connect-token/route.ts:28-37 | once a token has been served and stored, the next GET serves the same one |
| ConnectTokenRoute.Get | src/app/api/user/connect-token/route.ts:10-44 | 401; 404 without a profile; a stored token is returned and nothing changes; otherwise the generated token is stored and returned, or 500 when another profile holds it; whatever is returned is the caller's stored, non-empty token |
| ConnectTokenRoute.Post | src/app/api/user/connect-token/route.ts:46-68 | 401; the generated token replaces the caller's, or 500 when the profile is missing or the token is taken; a returned token is 32 hex digits |
| ProfileRoute.CeilDays | src/app/api/user/profile/route.ts:54 | `Math.ceil(ms / day)`: the least number of whole days covering `ms` |
| ProfileRoute.DaysUntilRenewal | src/app/api/user/profile/route.ts:51-54 | the days to the end of the cycle, never negative |
| ProfileRoute.FullCycleAhead | src/app/api/user/profile/route.ts:51-54 | a cycle starting now, or a profile without a start, has 30 days ahead |
| ProfileRoute.DaysBounded | src/app/api/user/profile/route.ts:51-54 | once the cycle has started, at most 30 days remain |
| ProfileRoute.RenewalDue | src/app/api/user/profile/route.ts:54 | the count is 0 exactly when 30 days have passed since the start |
| ProfileRoute.DaysNonIncreasing | src/app/api/user/profile/route.ts:51-54 | the count never goes up as time passes |
| ProfileRoute.KeySummaries | src/app/api/user/profile/route.ts:17-24 | each key row is summarised by its provider and creation time |
| ProfileRoute.Get | src/app/api/user/profile/route.ts:5-72 | 401; an existing profile is read and nothing changes; a first-time caller gets the new profile (no keys, 30 days, 0 of 100 used), or 500 when the email is taken; the view reports the caller's stored profile |
| UsageRoute.UserLogs | src/app/api/user/usage/route.ts:15-16 | a log is selected exactly when it is in the table and belongs to the user, as often as it occurs there |
| UsageRoute.SameOwners | src/app/api/user/usage/route.ts:15-17 | reordering the user's logs leaves only that user's logs |
| UsageRoute.Window | src/app/api/user/usage/route.ts:26-30 | a log is selected exactly when it is the user's, at or after the lower bound, and before the upper bound when there is one, as often as it occurs in the table |
| UsageRoute.Insert | src/app/api/user/usage/route.ts:17 | inserting adds exactly that log, and the new head is the log or the old head |
| UsageRoute.InsertSorted | src/app/api/user/usage/route.ts:17 | inserting into a newest-first list keeps it newest first |
| UsageRoute.SortNewest | src/app/api/user/usage/route.ts:17 | the logs, newest first, as a permutation of the input |
| UsageRoute.Take | src/app/api/user/usage/route.ts:18 | the first n logs, or all when fewer |
| UsageRoute.RecentLogs | src/app/api/user/usage/route.ts:15-19 | up to 20 of the caller's logs, newest first, and none of the caller's left-out logs is newer than a listed one |
| UsageRoute.SortIsNewest | src/app/api/user/usage/route.ts:17 | the fully sorted logs are a newest-first selection that leaves nothing out |
| UsageRoute.TakeKeepsNewest | src/app/api/user/usage/route.ts:17-18 | cutting a newest-first selection keeps it sorted and drawn from the same logs, and drops nothing newer than what it keeps |
| UsageRoute.TailIsOlder | src/app/api/user/usage/route.ts:17-18 | in a newest-first list, a log past a position is no newer than any before it |
| UsageRoute.CountStatus | src/app/api/user/usage/route.ts:32 | a status count never exceeds the number of logs |
| UsageRoute.StatusesPartition | src/lib/supabase.ts:89 | every log is a success or a failure, so the two counts and row sums add up to the totals |
| UsageRoute.GroupByStatus | src/app/api/user/usage/route.ts:26-34 | one group per status that occurs, with that status's count and row sum |
| UsageRoute.FindCount | src/app/api/user/usage/route.ts:61-62 | a status with no group counts 0 |
| UsageRoute.GroupTotals | src/app/api/user/usage/route.ts:51 | the summed group counts are the number of logs, and the summed row sums are all rows |
| UsageRoute.FindGroup | src/app/api/user/usage/route.ts:61-62 | looking a status up among the groups gives that status's count |
| UsageRoute.StatsOf | src/app/api/user/usage/route.ts:51-63 | the month's total counts every log, success and failed split it, and rowsProcessed adds all rows |
| UsageRoute.PercentChange | src/app/api/user/usage/route.ts:52-55 | 0 without a previous month, otherwise the percent change rounded to the nearest integer |
| UsageRoute.PercentChangeSign | src/app/api/user/usage/route.ts:53-55 | the change has the sign of the difference and is never below -100 |
| UsageRoute.PercentChangeExamples | src/app/api/user/usage/route.ts:53-55 | an empty month after a busy one is -100, a doubled month +100 |
| UsageRoute.WindowsPartition | src/app/api/user/usage/route.ts:22-49 | last month and this month together are everything since last month began |
| UsageRoute.Report | src/app/api/user/usage/route.ts:5-71 | 401 exactly without a session; otherwise always a report: the recent logs, this month's grouped figures, and the change against last month's count |
| AuthCallbackRoute.NextOrDefault | src/app/auth/callback/route.ts:11 | an absent `next` is "/dashboard"; a given one, even empty, is kept |
| AuthCallbackRoute.RedirectPath | src/app/auth/callback/route.ts:72 | one leading slash is dropped, and any other path is kept unchanged |
| AuthCallbackRoute.RedirectPathDropsOneSlash | src/app/auth/callback/route.ts:72 | only one slash is dropped, so a path starting with two keeps its second one |
| AuthCallbackRoute.DefaultRedirect | src/app/auth/callback/route.ts:11-72 | without `next` the user lands on "dashboard" under the base URL |
| AuthCallbackRoute.Callback | src/app/auth/callback/route.ts:7-80 | a missing code or failed exchange redirects to the failure page and changes nothing; otherwise to the base URL plus the path; only an absent profile is created, and a failed creation changes neither the store nor the redirect |
| DashboardPage.FormatTimeAgo | src/app/dashboard/page.tsx:191-203 | "Just now" under a minute (future times included), then whole minutes under an hour, whole hours under a day, whole days after |
| DashboardPage.NestedFloors | src/app/dashboard/page.tsx:195-197 | flooring to minutes then hours (then days) is flooring to hours (days) directly |
| DashboardPage.MinutesDistinguished | src/app/dashboard/page.tsx:195-200 | distinct whole minutes under an hour give distinct labels |
| DashboardPage.SuffixCancels | src/app/dashboard/page.tsx:195-200 | two labels with the same unit word are equal only when their numbers are |
| DashboardPage.GetProviderKey | src/app/dashboard/page.tsx:188-189 | the first listed key of the named provider, or none exactly when no listed key has that provider |
| DashboardPage.ProviderCardShowsListedKey | src/app/dashboard/page.tsx:423-424 | a provider's card finds a key exactly when the listing has one for that provider, and it is that provider's |
| DashboardPage.RecentActivity | src/app/dashboard/page.tsx:349 | at most the first 5 logs, in their given order |
| DashboardPage.ActivityIsNewest | src/app/dashboard/page.tsx:349 | over the usage report, the card shows the caller's newest logs, newest first |
| UsagePage.FormatTimeAgo | src/app/dashboard/usage/page.tsx:38-50 | the usage page's lazier copy gives the same label as the dashboard's for every elapsed time |
| UsagePage.SuccessRate | src/app/dashboard/usage/page.tsx:84 | 0 for an empty month, otherwise successes over total in percent, rounded to the nearest integer |
| UsagePage.SuccessRateBounds | src/app/dashboard/usage/page.tsx:84 | the rate lies in 0..100, and is 100 when every request succeeded |
| UsagePage.MonthRateIsPercentage | src/app/dashboard/usage/page.tsx:84 | the rate shown for a month's statistics is a percentage |

## Left out

- Concurrency: every request runs alone, one after another. The limit check
  and the increment of the sync POST are separate store calls, and
  interleaved requests can pass the limit together. That race is not
  modelled.
- Partial failure: the sync POST's log insert and counter increment cannot
  fail once the profile has been found. A store outage between them is not
  modelled.
- Authentication, sessions, cookies and the code exchange are inputs: an
  optional user and a success flag.
- Malformed request bodies: a body that is not JSON (500 in the three
  handlers that read a JSON body: the sync POST and the api-keys POST and
  DELETE) and fields of the wrong type are not modelled.
- src/lib/encryption.ts (AES-256-GCM with scrypt) is not part of this model.
  The routes modelled store plain base 64.
- ApiKeysRoute.DecryptKey: Node's base 64 decoder is lenient about malformed
  text, and this model's strict decoder returns the empty key instead. The
  handlers never see the difference: the only ones that write keys,
  `ApiKeysRoute.Post` and `ApiKeysRoute.Delete`, keep `StoredKeysDecode`
  (every stored key text decodes), and the others leave the keys as they are.
- ApiKeysRoute.MaskKey works on the key's bytes and shows each byte as the
  character with that code. JavaScript counts UTF-16 units of the decoded
  text. The two agree on ASCII keys; the UTF-8 conversion is not modelled.
- Row ids are not modelled: the `id` of the key listing and the save response,
  and the `id` of the usage rows returned as `recentLogs` (`UsageLog` has none).
- The order of rows returned without an `orderBy` (key rows, group rows) is
  fixed by provider or status here.
- The order among logs with equal creation times is whatever the insertion
  sort gives.
- The database's default plan for a new profile is taken to be Free. The
  schema is not part of this model.
- The update time of a key row is the time of the save.
- Floating point: the percent change and the success rate are computed
  exactly. They are rounded to the nearest integer, halves up, as
  `Math.round` does on exact values. Float rounding of the quotient is not
  modelled.
- Calendars: timestamps are integer milliseconds and the starts of this month
  and the last are inputs. A cycle is 30 days of 86400000 ms, with no daylight
  saving shift.
- UI state, rendering, navigation and the other pages are not modelled, nor
  are `usagePercent` and the '+'/'%' formatting of the percent change.
