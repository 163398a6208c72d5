/** The OAuth callback at `/auth/callback`: exchange the code for a session,
    make sure the user has a profile, and redirect. */
module AuthCallbackRoute {
  import opened Common
  import opened Store

  const DefaultNext: string := "/dashboard"
  const FailurePath: string := "login?error=auth_failed"

  /** `searchParams.get('next') ?? '/dashboard'`: only an absent parameter
      takes the default; an empty one is kept. */
  function NextOrDefault(next: Option<string>): (r: string)
    ensures next.Some? ==> r == next.value
    ensures next.None? ==> r == DefaultNext
  {
    match next
    case Some(n) => n
    case None => DefaultNext
  }

  /** The path appended to the base URL, which already ends in a slash: one
      leading slash of `next` is dropped so the two do not double up. */
  function RedirectPath(next: string): (r: string)
    ensures |next| > 0 && next[0] == '/' ==> "/" + r == next
    ensures !(|next| > 0 && next[0] == '/') ==> r == next
  {
    if |next| > 0 && next[0] == '/' then next[1..] else next
  }

  /** Only one slash is dropped: a protocol-relative `//host` keeps its second one. */
  lemma RedirectPathDropsOneSlash(next: string)
    requires |next| >= 2 && next[0] == '/' && next[1] == '/'
    ensures |RedirectPath(next)| > 0 && RedirectPath(next)[0] == '/'
  {
  }

  /** What the default `next` leads to. */
  lemma DefaultRedirect()
    ensures RedirectPath(NextOrDefault(None)) == "dashboard"
  {
  }

  /** The handler. `code` is the query parameter; `exchanged` is whether the
      auth provider accepted it and `user` who it then reports as signed in;
      `baseUrl` is the site URL, ending in a slash. A profile is created for a
      first-time user, and a store error while doing so is swallowed: the
      redirect is the same either way. */
  method Callback(db: Db, code: Option<string>, next: Option<string>, exchanged: bool, user: Option<AuthUser>,
                  baseUrl: string, now: int) returns (url: string)
    requires db.Valid()
    modifies db
    ensures db.Valid()
    ensures (code.None? || code.value == "" || !exchanged) ==> url == baseUrl + FailurePath && unchanged(db)
    ensures code.Some? && code.value != "" && exchanged ==> url == baseUrl + RedirectPath(NextOrDefault(next))
    // a profile is only ever added, and only the caller's, and only when absent
    ensures db.apiKeys == old(db.apiKeys) && db.usageLogs == old(db.usageLogs)
    ensures db.profiles == old(db.profiles) || (
      && code.Some? && code.value != "" && exchanged && user.Some?
      && user.value.id !in old(db.profiles) && !old(db.EmailTaken(user.value.email))
      && db.profiles == old(db.profiles)[user.value.id := NewProfile(user.value, now)])
    ensures code.Some? && code.value != "" && exchanged && user.Some? && user.value.id !in old(db.profiles)
            && !old(db.EmailTaken(user.value.email)) ==>
      db.profiles == old(db.profiles)[user.value.id := NewProfile(user.value, now)]
  {
    if code.Some? && code.value != "" && exchanged {
      if user.Some? {
        var u := user.value;
        if u.id !in db.profiles {
          var created := db.CreateProfile(NewProfile(u, now));
        }
      }
      return baseUrl + RedirectPath(NextOrDefault(next));
    }
    url := baseUrl + FailurePath;
  }
}
