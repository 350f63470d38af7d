/**
 * `config.matcher` of middleware.js as the regular expression it is written
 * as, and the proof that the direct reading `Matched` agrees with it.
 */
module MatcherSemantics {
  import opened Middleware
  import opened JsRegex

  /** The matcher `/((?!_next/static|favicon.ico).*)`. */
  const MatcherPattern: Re := Cat(Text("/"), Cat(NotAhead(Exclusions), DotStar))

  /** The alternatives of the lookahead: `_next/static|favicon.ico`. */
  const Exclusions: Re := Alt(Text("_next/static"), Cat(Text("favicon"), Cat(Dot, Text("ico"))))

  /** `favicon.ico` spans `w[1..k]` exactly when `k` is 12 and `w[1..]` begins with such a name. */
  lemma FaviconSpan(w: string, k: nat)
    requires 1 <= k <= |w|
    ensures Span(Cat(Text("favicon"), Cat(Dot, Text("ico"))), w, 1, k) <==> k == 12 && FaviconLike(w[1..])
  {
    var rest := w[1..];
    if k == 12 && FaviconLike(rest) {
      assert w[1..8] == rest[..7] && w[8] == rest[7] && w[9..12] == rest[8..11];
      assert Span(Text("favicon"), w, 1, 8);
      assert Span(Dot, w, 8, 9);
      assert Span(Text("ico"), w, 9, 12);
      assert Span(Cat(Dot, Text("ico")), w, 8, 12);
    }
    if Span(Cat(Text("favicon"), Cat(Dot, Text("ico"))), w, 1, k) {
      var m :| 1 <= m <= k && Span(Text("favicon"), w, 1, m) && Span(Cat(Dot, Text("ico")), w, m, k);
      TextSpan("favicon", w, 1, m);
      var n :| m <= n <= k && Span(Dot, w, m, n) && Span(Text("ico"), w, n, k);
      TextSpan("ico", w, n, k);
      assert rest[..7] == w[1..8] && rest[7] == w[8] && rest[8..11] == w[9..12];
    }
  }

  /** `_next/static` spans `w[1..k]` exactly when `k` is 13 and `w[1..]` begins with it. */
  lemma StaticSpan(w: string, k: nat)
    requires 1 <= k <= |w|
    ensures Span(Text("_next/static"), w, 1, k) <==> k == 13 && |w[1..]| >= 12 && w[1..][..12] == "_next/static"
  {
  }

  /** The lookahead's alternatives can begin at position 1 of `w` exactly when `w[1..]` has an excluded prefix. */
  lemma ExclusionsSpan(w: string)
    requires |w| >= 1
    ensures (exists k :: 1 <= k <= |w| && Span(Exclusions, w, 1, k)) <==> ExcludedPrefix(w[1..])
  {
    var rest := w[1..];
    if |rest| >= 12 && rest[..12] == "_next/static" {
      StaticSpan(w, 13);
      assert Span(Exclusions, w, 1, 13);
    } else if FaviconLike(rest) {
      FaviconSpan(w, 12);
      assert Span(Exclusions, w, 1, 12);
    }
    if k :| 1 <= k <= |w| && Span(Exclusions, w, 1, k) {
      StaticSpan(w, k);
      FaviconSpan(w, k);
    }
  }

  /** The direct reading of the matcher and the regular expression accept the same paths. */
  lemma {:induction false} MatchedIsPattern(path: string)
    ensures Matched(path) <==> FullMatch(MatcherPattern, path)
  {
    var tail := Cat(NotAhead(Exclusions), DotStar);
    if Matched(path) {
      ExclusionsSpan(path);
      assert Span(NotAhead(Exclusions), path, 1, 1);
      assert Span(DotStar, path, 1, |path|);
      assert Span(tail, path, 1, |path|);
      assert path[0..1] == "/";
      assert Span(Text("/"), path, 0, 1);
    }
    if FullMatch(MatcherPattern, path) {
      var k :| 0 <= k <= |path| && Span(Text("/"), path, 0, k) && Span(tail, path, k, |path|);
      TextSpan("/", path, 0, k);
      assert k == 1 && path[0] == path[0..1][0];
      var m :| 1 <= m <= |path| && Span(NotAhead(Exclusions), path, 1, m) && Span(DotStar, path, m, |path|);
      assert m == 1;
      ExclusionsSpan(path);
    }
  }
}
