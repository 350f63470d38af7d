/**
 * The route guard of middleware.js: a decision taken once per request from the
 * request path and the `user_type` cookie, and the path matcher that decides
 * whether the guard runs on a path at all.
 *
 * The framework objects are abstracted into values: the request is its path
 * and the optional value of the `user_type` cookie; the response is a
 * `Decision`.
 */
module Middleware {
  import opened Wrappers
  import opened JsRegex

  const LogoutPath: string := "/logout"
  const LoginPath: string := "/login"
  const HomePath: string := "/home"

  /** The outcome of one run of the middleware. */
  datatype Decision =
    | Next
      // pass the request through to the page
    | Redirect(target: string, clearCookie: bool)
      // redirect to `target`; `clearCookie` means the response also expires
      // the `user_type` cookie (empty value, expiry at the epoch, path "/")
    | LogoutFault
      // the handler throws before returning: the `/logout` branch reads a
      // variable `response` that is bound nowhere in its scope

  /**
   * `request.cookies.get("user_type")` yields a cookie object or `undefined`;
   * only the object's presence is tested, so a cookie sent with an empty value
   * still counts as present.
   */
  predicate HasUserType(userType: Option<string>)
  {
    userType.Some?
  }

  /** The clauses after the `/logout` check: missing cookie, login with a cookie, pass-through. */
  function CookieClauses(path: string, userType: Option<string>): (d: Decision)
    ensures d == Next || d == Redirect(LoginPath, false) || d == Redirect(HomePath, false)
    ensures d.Redirect? ==> (d.target == LoginPath <==> path != LoginPath)
  {
    if path != LoginPath && !HasUserType(userType) then Redirect(LoginPath, false)
    else if path == LoginPath && HasUserType(userType) then Redirect(HomePath, false)
    else Next
  }

  /** The middleware as written: the `/logout` branch faults. */
  function Guard(path: string, userType: Option<string>): (d: Decision)
    ensures d.LogoutFault? <==> path == LogoutPath
    ensures d.Redirect? ==> !d.clearCookie && (d.target == LoginPath || d.target == HomePath)
  {
    if path == LogoutPath then LogoutFault
    else CookieClauses(path, userType)
  }

  /** The middleware as its `/logout` branch evidently means it: clear the cookie, then go to the login page. */
  function IntendedGuard(path: string, userType: Option<string>): (d: Decision)
    ensures !d.LogoutFault?
    ensures d.Redirect? && d.clearCookie <==> path == LogoutPath
    ensures d.Redirect? ==> d.target == LoginPath || d.target == HomePath
  {
    if path == LogoutPath then Redirect(LoginPath, true)
    else CookieClauses(path, userType)
  }

  /** `"favicon.ico"` read as a regular expression: the `.` is any one non-line-terminator. */
  predicate FaviconLike(rest: string)
  {
    |rest| >= 11 && rest[..7] == "favicon" && !LineTerminator(rest[7]) && rest[8..11] == "ico"
  }

  /** The negative lookahead `(?!_next/static|favicon.ico)` fails at the start of `rest`. */
  predicate ExcludedPrefix(rest: string)
  {
    (|rest| >= 12 && rest[..12] == "_next/static") || FaviconLike(rest)
  }

  /**
   * `config.matcher`, the pattern `/((?!_next/static|favicon.ico).*)` matched
   * against the whole path: a leading "/", then anything without a line
   * terminator that does not start with an excluded prefix.
   */
  predicate Matched(path: string)
  {
    && |path| >= 1
    && path[0] == '/'
    && (forall c :: c in path ==> !LineTerminator(c))
    && !ExcludedPrefix(path[1..])
  }

  /** What a request meets: the guard on a matched path, plain pass-through elsewhere. */
  function Serve(guard: (string, Option<string>) -> Decision, path: string, userType: Option<string>): Decision
  {
    if Matched(path) then guard(path, userType) else Next
  }

  /** The `user_type` cookie the browser sends after it has applied a response. */
  function CookieAfter(userType: Option<string>, d: Decision): Option<string>
  {
    if d.Redirect? && d.clearCookie then None else userType
  }
}
