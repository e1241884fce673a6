/**
 * `GET /auth/callback`: the link in the confirmation e-mail lands here with
 * a one-time `code`. The code is exchanged for a session, a profile is
 * created for a user who has none, and the browser is redirected.
 */
module AuthCallback {
  import opened Wrappers
  import opened Accounts

  /** What exchanging the code yields: an error, no user, an exception, or the signed-in user. */
  datatype Exchange = ExchangeError | NoUser | Threw | SignedIn(user: AuthUser)

  const LoginPath := "/auth/login"
  const LoginErrorPath := "/auth/login?message=حدث خطأ في تسجيل الدخول"
  const UnexpectedErrorPath := "/auth/login?message=حدث خطأ غير متوقع"
  const DashboardPath := "/dashboard"

  /** `next || '/dashboard'` */
  function Target(next: Option<string>): (path: string)
    ensures Filled(next) ==> path == next.value
    ensures !Filled(next) ==> path == DashboardPath
  {
    if Filled(next) then next.value else DashboardPath
  }

  /**
   * The path the handler builds for the redirect, after the request's
   * origin; `Callback` adds the one case where the URL parser rejects it.
   */
  function RedirectPath(code: Option<string>, next: Option<string>, exchange: Exchange): (path: string)
    ensures !Filled(code) ==> path == LoginPath
    ensures Filled(code) ==> match exchange
      case ExchangeError => path == LoginErrorPath
      case Threw => path == UnexpectedErrorPath
      case NoUser => path == LoginPath
      case SignedIn(_) => path == Target(next)
  {
    if !Filled(code) then LoginPath
    else match exchange
      case ExchangeError => LoginErrorPath
      case Threw => UnexpectedErrorPath
      case NoUser => LoginPath
      case SignedIn(_) => Target(next)
  }

  /**
   * A path on this site: it starts with one `/` and not with `//` or `/\`,
   * which a browser would read as a reference to another host.
   */
  predicate LocalPath(p: string) {
    |p| >= 1 && p[0] == '/' && !(|p| >= 2 && (p[1] == '/' || p[1] == '\\'))
  }

  /**
   * As written, `next` is appended to the origin unchecked: after
   * `https://site` the parameter `@evil.example` gives
   * `https://site@evil.example`, a valid URL whose host is `evil.example`.
   */
  lemma AsWrittenOpenRedirect(u: AuthUser)
    ensures var path := RedirectPath(Some("c"), Some("@evil.example"), SignedIn(u));
      && path == "@evil.example"
      && !LocalPath(path)
  {
  }

  /**
   * As written, any non-empty `next` at all is the path built for a
   * signed-in user; it is followed whenever the URL parser accepts it.
   */
  lemma AsWrittenFollowsAnyNext(code: Option<string>, next: Option<string>, u: AuthUser)
    requires Filled(code) && Filled(next)
    ensures RedirectPath(code, next, SignedIn(u)) == next.value
  {
  }

  /** The intended target: `next` only when it is a path on this site, else the dashboard. */
  function SafeTarget(next: Option<string>): (path: string)
    ensures LocalPath(path)
    ensures path == DashboardPath || (next.Some? && path == next.value)
    ensures Filled(next) && LocalPath(next.value) ==> path == next.value
    ensures next.Some? && !LocalPath(next.value) ==> path == DashboardPath
  {
    if next.Some? && LocalPath(next.value) then next.value
    else
      assert DashboardPath[0] == '/' && DashboardPath[1] == 'd';
      DashboardPath
  }

  /** The redirect path as intended: `RedirectPath` with the checked target. */
  function SafeRedirectPath(code: Option<string>, next: Option<string>, exchange: Exchange): (path: string)
    ensures LocalPath(path)
    ensures !(Filled(code) && exchange.SignedIn?) ==> path == RedirectPath(code, next, exchange)
    ensures Filled(code) && exchange.SignedIn? ==> path == SafeTarget(next)
  {
    if Filled(code) && exchange.SignedIn? then SafeTarget(next)
    else
      var p := RedirectPath(code, next, exchange);
      FailuresLandOnLogin(code, next, exchange);
      assert LoginPath[0] == '/' && LoginPath[1] == 'a';
      assert p[0] == p[..|LoginPath|][0] && p[1] == p[..|LoginPath|][1];
      p
  }

  /**
   * With the checked target every redirect stays on the site: the location
   * is the origin followed by a path that starts with a single `/`.
   */
  lemma SafeRedirectStaysOnOrigin(origin: string, code: Option<string>, next: Option<string>, exchange: Exchange)
    ensures var location := origin + SafeRedirectPath(code, next, exchange);
      && location[..|origin|] == origin
      && LocalPath(location[|origin|..])
  {
    var p := SafeRedirectPath(code, next, exchange);
    assert (origin + p)[|origin|..] == p;
  }

  /** The check changes nothing for a `next` that is already a path on this site. */
  lemma SafeAgreesOnLocalPaths(code: Option<string>, next: Option<string>, exchange: Exchange)
    requires !Filled(next) || LocalPath(next.value)
    ensures SafeRedirectPath(code, next, exchange) == RedirectPath(code, next, exchange)
  {
  }

  /** Only a signed-in user reaches `next`; every failure lands on the login page. */
  lemma FailuresLandOnLogin(code: Option<string>, next: Option<string>, exchange: Exchange)
    requires !Filled(code) || !exchange.SignedIn?
    ensures RedirectPath(code, next, exchange)[..|LoginPath|] == LoginPath
  {
  }

  /**
   * One visit. `code` and `next` are the query parameters; `exchange` is
   * the code exchange's outcome and `insertFails` the profile insert's
   * error, which the handler ignores. `targetRejected` is the URL parser's
   * verdict that the origin followed by the signed-in target is not a
   * valid URL (a `next` such as `@` or `:x`): the redirect then throws
   * after the profile is ensured, and the handler's catch sends the
   * visitor to the unexpected-error page. The login redirects always
   * parse, so the verdict only matters on the signed-in path.
   */
  method Callback(table: ProfileTable, origin: string, code: Option<string>, next: Option<string>,
                  exchange: Exchange, insertFails: bool, targetRejected: bool)
    returns (location: string)
    modifies table
    ensures !(Filled(code) && exchange.SignedIn? && targetRejected) ==>
      location == origin + RedirectPath(code, next, exchange)
    ensures Filled(code) && exchange.SignedIn? && targetRejected ==>
      location == origin + UnexpectedErrorPath
    ensures !(Filled(code) && exchange.SignedIn?) ==> table.profiles == old(table.profiles)
    ensures Filled(code) && exchange.SignedIn? ==>
      var u := exchange.user;
      table.profiles == (if u.id in old(table.profiles) || insertFails then old(table.profiles)
                         else old(table.profiles)[u.id := NewProfile(u)])
  {
    if Filled(code) {
      match exchange {
        case ExchangeError =>
          return origin + LoginErrorPath;
        case Threw =>
          return origin + UnexpectedErrorPath;
        case NoUser =>
        case SignedIn(u) =>
          var _ := table.EnsureProfile(u, insertFails);
          if targetRejected {
            return origin + UnexpectedErrorPath;
          }
          return origin + Target(next);
      }
    }
    return origin + LoginPath;
  }
}
