# Route guard of a Next.js tutorial application

This project models the request middleware of the application (`middleware.js`):
the route guard that, once per request, looks at the request path and at whether the
`user_type` cookie was sent, and either passes the request through, redirects it to
`/login` or `/home`, or — on `/logout` — is meant to expire the cookie and redirect to
`/login`. It also models `config.matcher`, the pattern that decides on which paths the
guard runs at all.

The framework objects are abstracted into values: a request is its path (a `string`) and
the optional value of the `user_type` cookie (`Option<string>`); a response is a
`Decision` — `Next`, `Redirect(target, clearCookie)` or `LogoutFault`.

Modules:

- `Wrappers` (wrappers.dfy): `Option`.
- `Middleware` (middleware.dfy): the `Decision` datatype, `Guard` (the code as written),
  `IntendedGuard` (the `/logout` branch as evidently meant), `Matched` (the matcher read
  directly), `Serve` (the guard on matched paths, pass-through elsewhere) and
  `CookieAfter` (the cookie a browser sends once it has applied a decision).
- `GuardRules` (rules.dfy): the guard's clauses as an ordered decision table with a
  first-match interpreter, the reference the if/return chain is proved against.
- `JsRegex` (regex.dfy): the meaning of the regular-expression fragment the matcher uses
  (literal text, `.`, `.*`, concatenation, alternation, negative lookahead), as spans,
  and the line terminators that `.` does not match.
- `MatcherSemantics` (matcher.dfy): the matcher written as such a regular expression,
  and the proof that `Matched` accepts exactly the paths the expression matches.
- `GuardProperties` (properties.dfy): the properties of the guard and the matcher.

Modelling choices:

- `request.cookies.get("user_type")` yields a cookie object or `undefined`, and the
  source tests only its truthiness. The model therefore looks only at whether the cookie
  is present: a cookie sent with an empty value counts as present.
- As written, the `/logout` branch calls `response.cookies.set(...)` on a name that is
  bound nowhere in the module, so it throws before it can redirect. `Guard` returns
  `LogoutFault` there. `IntendedGuard` returns `Redirect("/login", true)` there, and agrees
  with `Guard` everywhere else.
- Paths are compared by exact string equality; so `/login/` and `/Login` are protected
  paths like any other.
- The matcher is read as the ECMAScript regular expression it is written as, anchored
  at both ends and case-sensitive. Its `.` characters, including the unescaped one in
  `favicon.ico`, match any character but a line terminator.

## Model

| member | source | states |
|---|---|---|
| `Middleware.Guard` | middleware.js:3-21 | the request faults exactly on `/logout`; otherwise every redirect goes to `/login` or `/home` and never clears the cookie |
| `Middleware.CookieClauses` | middleware.js:11-20 | the clauses after the `/logout` test give only pass-through, a redirect to `/login` or a redirect to `/home`, and the redirect goes to `/login` exactly when the path is not `/login` |
| `Middleware.IntendedGuard` | middleware.js:6-9 | the corrected guard never faults; it redirects with a cookie clear exactly on `/logout`, and its redirects go only to `/login` or `/home` |
| `GuardRules.FirstMatch` | middleware.js:6-20 | the index returned is a rule that holds with no earlier rule holding; none is returned only when no rule holds |
| `GuardRules.ExactlyOneSelected` | middleware.js:6-20 | a clause table that ends in an unconditional clause selects exactly one clause for every request, so every request gets an outcome |
| `GuardRules.TableSelects` | middleware.js:6-20 | each clause of the source order fires exactly under its own condition: `/logout`; another non-login path without the cookie; `/login` with it; the rest |
| `GuardRules.GuardFollowsTable` | middleware.js:6-20 | the if/return chain computes the first-match outcome of the clause table, for the code as written and for the corrected logout branch |
| `GuardRules.LogoutOverlapsMissingCookie` | middleware.js:6-13 | a `/logout` request without the cookie meets both the logout clause and the missing-cookie clause, and the order gives it the logout outcome |
| `MatcherSemantics.ExclusionsSpan` | middleware.js:24 | the lookahead's alternatives `_next/static` and `favicon.ico` can match right after the leading `/` exactly when the rest of the path starts with an excluded prefix |
| `MatcherSemantics.MatchedIsPattern` | middleware.js:24 | the direct reading of the matcher accepts a path exactly when the whole path matches the pattern `/((?!_next/static\|favicon.ico).*)` |
| `GuardProperties.LogoutFirst` | middleware.js:6-9 | the outcome for `/logout` does not depend on the cookie: a fault as written, a redirect to `/login` that clears the cookie as intended, after which no cookie is sent |
| `GuardProperties.NoCookieMeansLogin` | middleware.js:11-13 | a path other than `/login` and `/logout` is redirected to `/login`, without a cookie clear, exactly when the cookie is missing |
| `GuardProperties.LoginWithCookieMeansHome` | middleware.js:14-16 | a request is redirected to `/home` exactly when it is for `/login` and carries the cookie |
| `GuardProperties.PassThrough` | middleware.js:11-20 | a request passes through exactly when it is `/login` without the cookie or another path than `/login` and `/logout` with it; the corrected guard passes the same requests |
| `GuardProperties.CookieValueIgnored` | middleware.js:4-14 | only the cookie's presence matters: any two values, the empty one included, give the same outcome |
| `GuardProperties.IntendedDiffersOnlyOnLogout` | middleware.js:6-9 | the corrected guard and the guard as written agree on a path exactly when it is not `/logout` |
| `GuardProperties.RedirectTargetsMatched` | middleware.js:24 | `/login`, `/home` and `/logout` are all paths the matcher sends to the guard |
| `GuardProperties.NoRedirectLoop` | middleware.js:6-24 | every redirect lands on `/login` or `/home`, the guard runs there, and with the cookie the browser then holds it passes the request through: no request is redirected twice in a row |
| `GuardProperties.PathSeenOnlyByEquality` | middleware.js:6-14 | two paths that agree on being equal to `/login` and to `/logout` get the same outcome from both guards, whatever the cookie |
| `GuardProperties.ExactPathComparison` | middleware.js:6-14 | `/login/`, `/Login`, `/logout/` and `/LOGOUT` are protected non-login paths: each is redirected to `/login` without the cookie and passed through with it |
| `GuardProperties.ExcludedPathsPassThrough` | middleware.js:23-25 | the role of the matcher, read off `Serve`: on a path it excludes, under either guard, the request passes through untouched |
| `GuardProperties.MatcherExcludesStaticAssets` | middleware.js:24 | every path `/_next/static` followed by any text is excluded |
| `GuardProperties.MatcherKeepsOtherNextPaths` | middleware.js:24 | `/_next/image`, `/_next/stati` and `/static/_next/static` are matched: the exclusion is a whole prefix right after the `/` |
| `GuardProperties.MatcherExcludesFaviconLike` | middleware.js:24 | every path `/favicon`, then any one character but a line terminator, then `ico`, then any text, is excluded: the `.` is unescaped and the test is a prefix test |
| `GuardProperties.MatcherExcludesFavicon` | middleware.js:24 | `/favicon.ico`, `/faviconXico` and `/favicon.icon` are excluded; `/favicon.png` is not |
| `GuardProperties.MatcherNeedsLeadingSlash` | middleware.js:24 | `/` is matched; the empty path, `login` (no leading `/`) and `/home` followed by a newline (which `.*` cannot match) are not |

## Findings

| source | as written | input that shows it | evidently intended | confidence | as-written member | corrected member |
|---|---|---|---|---|---|---|
| middleware.js:7 | `response.cookies.set(...)` names a variable bound nowhere in scope, so the `/logout` branch throws a ReferenceError before it returns | any request for `/logout`, with or without the cookie | expire the `user_type` cookie (empty value, epoch expiry, path `/`) on the redirect response and redirect to `/login` | high; not executed | `Middleware.Guard`, of which `GuardProperties.LogoutFirst` shows `LogoutFault` on every `/logout` request | `Middleware.IntendedGuard`, of which `GuardProperties.LogoutFirst` shows the redirect to `/login` with the cookie cleared and `GuardProperties.NoRedirectLoop` that this redirect then passes through |

## Left out

- How the framework builds responses: `NextResponse.redirect`, `NextResponse.next`, the
  absolute URL made by `new URL(..., request.url)` and the cookie attributes are
  reduced to a `Decision`; the cookie clear (empty value, expiry at the epoch, path `/`)
  is the `clearCookie` flag, and its effect on the browser is `CookieAfter`.
- How the framework compiles `config.matcher` (its path-pattern translation, data-route
  and `.json` variants, base path and locale prefixes): the matcher is modelled as the
  regular expression written in the source.
- Characters are Unicode scalar values (Dafny's `char`), not the UTF-16 code units an
  ECMAScript `.` without the `u` flag matches: on a path holding a character outside the
  Basic Multilingual Plane the two readings can differ (`/favicon` + U+1F600 + `ico` is excluded
  by the model but matched by the source's expression). They agree on the percent-encoded,
  ASCII pathnames the framework passes to the matcher.
- Cookie parsing by the framework: a request carries at most one `user_type` value.
- What the thrown error becomes: a `LogoutFault` stands for the uncaught exception;
  the framework's error response is not modelled.
- The comment about Cache-Control headers (middleware.js:17) has no code behind it.
- The login page, layouts, data-fetching pages, API routes and image, font and routing
  demonstrations are user interface, network fetches or constant framework responses
  and are not part of this model; in particular the login page's check that the typed
  value is `user` or `admin` is not modelled, as the guard never inspects the value.
