/**
 * The fragment of ECMAScript regular expressions that `config.matcher` uses:
 * literal text, `.`, `.*`, concatenation, alternation and negative lookahead,
 * given a set-of-spans meaning. `Span(r, w, i, j)` says that `r` can match
 * exactly the characters `w[i..j]`; a lookahead looks at the rest of `w`.
 * Groups only capture, so they are left as plain concatenation.
 */
module JsRegex {
  /** ECMAScript line terminators: the characters `.` does not match. */
  predicate LineTerminator(c: char)
  {
    c == '\n' || c == '\r' || c == '\U{2028}' || c == '\U{2029}'
  }

  datatype Re =
    | Text(s: string)
    | Dot
    | DotStar
    | Cat(a: Re, b: Re)
    | Alt(a: Re, b: Re)
    | NotAhead(r: Re)

  ghost predicate Span(r: Re, w: string, i: nat, j: nat)
    decreases r
  {
    && i <= j <= |w|
    && match r
       case Text(s) => w[i..j] == s
       case Dot => j == i + 1 && !LineTerminator(w[i])
       case DotStar => forall k :: i <= k < j ==> !LineTerminator(w[k])
       case Cat(a, b) => exists k :: i <= k <= j && Span(a, w, i, k) && Span(b, w, k, j)
       case Alt(a, b) => Span(a, w, i, j) || Span(b, w, i, j)
       case NotAhead(x) => j == i && forall k :: i <= k <= |w| ==> !Span(x, w, i, k)
  }

  /** The whole of `w` matches `r`, as the middleware matcher is anchored at both ends. */
  ghost predicate FullMatch(r: Re, w: string)
  {
    Span(r, w, 0, |w|)
  }

  /** A literal matches only a span of its own length holding its own text. */
  lemma TextSpan(s: string, w: string, i: nat, j: nat)
    ensures Span(Text(s), w, i, j) <==> i <= j <= |w| && j == i + |s| && w[i..j] == s
  {
  }
}
