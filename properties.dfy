/** What middleware.js promises about its decisions, stated over the model. */
module GuardProperties {
  import opened Wrappers
  import opened Middleware
  import opened JsRegex

  /** The `/logout` clause is tried before any cookie test: its outcome does not depend on the cookie. */
  lemma LogoutFirst(a: Option<string>, b: Option<string>)
    ensures Guard(LogoutPath, a) == Guard(LogoutPath, b) == LogoutFault
    ensures IntendedGuard(LogoutPath, a) == IntendedGuard(LogoutPath, b) == Redirect(LoginPath, true)
    ensures CookieAfter(a, IntendedGuard(LogoutPath, a)) == None
  {
  }

  /** Any path but `/login` and `/logout` without the cookie goes to the login page. */
  lemma NoCookieMeansLogin(path: string, userType: Option<string>)
    requires path != LoginPath && path != LogoutPath
    ensures Guard(path, userType) == Redirect(LoginPath, false) <==> !HasUserType(userType)
    ensures IntendedGuard(path, userType) == Redirect(LoginPath, false) <==> !HasUserType(userType)
  {
  }

  /** `/login` with the cookie goes to the home page, and nothing else does. */
  lemma LoginWithCookieMeansHome(path: string, userType: Option<string>)
    ensures Guard(path, userType) == Redirect(HomePath, false) <==> path == LoginPath && HasUserType(userType)
    ensures IntendedGuard(path, userType) == Redirect(HomePath, false) <==> path == LoginPath && HasUserType(userType)
  {
  }

  /** A request passes through exactly when it is `/login` without the cookie, or any other unguarded path with it. */
  lemma PassThrough(path: string, userType: Option<string>)
    ensures Guard(path, userType) == Next <==>
      (path == LoginPath && !HasUserType(userType)) ||
      (path != LoginPath && path != LogoutPath && HasUserType(userType))
    ensures IntendedGuard(path, userType) == Next <==> Guard(path, userType) == Next
  {
  }

  /** The value of the cookie is never inspected, only whether it was sent. */
  lemma CookieValueIgnored(path: string, a: string, b: string)
    ensures Guard(path, Some(a)) == Guard(path, Some(b))
    ensures IntendedGuard(path, Some(a)) == IntendedGuard(path, Some(b))
    ensures Guard(path, Some("")) == Guard(path, Some(a))
  {
  }

  /** The two readings of the guard differ on `/logout` only. */
  lemma IntendedDiffersOnlyOnLogout(path: string, userType: Option<string>)
    ensures IntendedGuard(path, userType) == Guard(path, userType) <==> path != LogoutPath
  {
  }

  /** The guard runs on both redirect targets and on `/logout`. */
  lemma RedirectTargetsMatched()
    ensures Matched(LoginPath) && Matched(HomePath) && Matched(LogoutPath)
  {
  }

  /**
   * A redirect lands on `/login` or `/home`, the matcher sends the guard that
   * target, and with the cookie the browser then holds the guard passes it
   * through: no request is redirected twice in a row.
   */
  lemma NoRedirectLoop(path: string, userType: Option<string>)
    ensures var d := Serve(IntendedGuard, path, userType);
      d.Redirect? ==>
        && (d.target == LoginPath || d.target == HomePath)
        && Matched(d.target)
        && Serve(IntendedGuard, d.target, CookieAfter(userType, d)) == Next
    ensures var d := Serve(Guard, path, userType);
      d.Redirect? ==>
        && (d.target == LoginPath || d.target == HomePath)
        && Matched(d.target)
        && Serve(Guard, d.target, CookieAfter(userType, d)) == Next
  {
  }

  /** The guard sees the path only through equality with `/login` and `/logout`. */
  lemma PathSeenOnlyByEquality(p: string, q: string, userType: Option<string>)
    requires (p == LoginPath <==> q == LoginPath) && (p == LogoutPath <==> q == LogoutPath)
    ensures Guard(p, userType) == Guard(q, userType)
    ensures IntendedGuard(p, userType) == IntendedGuard(q, userType)
  {
  }

  /**
   * Paths are compared as exact strings: a trailing slash or another case is a
   * protected path, sent to the login page without the cookie and passed with it.
   */
  lemma ExactPathComparison(v: string)
    ensures Guard("/login/", None) == Redirect(LoginPath, false) && Guard("/login/", Some(v)) == Next
    ensures Guard("/Login", None) == Redirect(LoginPath, false) && Guard("/Login", Some(v)) == Next
    ensures Guard("/logout/", None) == Redirect(LoginPath, false) && Guard("/logout/", Some(v)) == Next
    ensures Guard("/LOGOUT", None) == Redirect(LoginPath, false) && Guard("/LOGOUT", Some(v)) == Next
  {
  }

  /** The guard never runs on (and so never redirects) a path the matcher excludes. */
  lemma ExcludedPathsPassThrough(path: string, userType: Option<string>)
    requires !Matched(path)
    ensures Serve(Guard, path, userType) == Next
    ensures Serve(IntendedGuard, path, userType) == Next
  {
  }

  /** Every path whose text after the leading "/" starts with `_next/static` is excluded. */
  lemma MatcherExcludesStaticAssets(rest: string)
    ensures !Matched("/_next/static" + rest)
  {
    assert ("/_next/static" + rest)[1..][..12] == "_next/static";
  }

  /** Only the whole prefix `_next/static`, right after the leading "/", is excluded. */
  lemma MatcherKeepsOtherNextPaths()
    ensures Matched("/_next/image")
    ensures Matched("/_next/stati")
    ensures Matched("/static/_next/static")
  {
    assert "/_next/image"[1..][..7][6] != "favicon"[6];
    assert "/_next/image"[1..][..11][6] != "_next/static"[6];
    assert "/_next/stati"[1..][..7][6] != "favicon"[6];
    assert "/static/_next/static"[1..][..12][0] != "_next/static"[0];
    assert "/static/_next/static"[1..][..7][0] != "favicon"[0];
  }

  /**
   * The `.` of `favicon.ico` is unescaped: every path whose text after the
   * leading "/" is `favicon`, any one character but a line terminator, `ico`
   * and anything after is excluded.
   */
  lemma MatcherExcludesFaviconLike(c: char, rest: string)
    requires !LineTerminator(c)
    ensures !Matched("/favicon" + [c] + "ico" + rest)
  {
    var path := "/favicon" + [c] + "ico" + rest;
    assert path[1..][..7] == "favicon" && path[1..][7] == c && path[1..][8..11] == "ico";
  }

  /** Instances: `/favicon.ico`, `/faviconXico` and `/favicon.icon` are excluded; `/favicon.png` is not. */
  lemma MatcherExcludesFavicon()
    ensures !Matched("/favicon.ico")
    ensures !Matched("/faviconXico")
    ensures !Matched("/favicon.icon")
    ensures Matched("/favicon.png")
  {
    MatcherExcludesFaviconLike('.', "");
    assert "/favicon" + ['.'] + "ico" + "" == "/favicon.ico";
    MatcherExcludesFaviconLike('X', "");
    assert "/favicon" + ['X'] + "ico" + "" == "/faviconXico";
    MatcherExcludesFaviconLike('.', "n");
    assert "/favicon" + ['.'] + "ico" + "n" == "/favicon.icon";
    assert "/favicon.png"[1..][8..11][0] != "ico"[0];
  }

  /** The path must begin with "/" and hold no line terminator, which `.*` cannot match. */
  lemma MatcherNeedsLeadingSlash()
    ensures Matched("/")
    ensures !Matched("")
    ensures !Matched("login")
    ensures !Matched("/home\n")
  {
    assert "/home\n"[5] == '\n' && '\n' in "/home\n";
  }
}
