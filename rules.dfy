/**
 * The guard's clauses as an ordered decision table read by a first-match
 * interpreter: the reference that the if/return chain of middleware.js is
 * checked against. The clauses overlap (a `/logout` request without a cookie
 * satisfies the first two), so it is their order that makes the outcome unique.
 */
module GuardRules {
  import opened Wrappers
  import opened Middleware

  /** A condition over the request, built from the tests the source makes. */
  datatype Cond =
    | PathIs(p: string)
    | PathIsNot(p: string)
    | WithCookie
    | WithoutCookie
    | Both(a: Cond, b: Cond)
    | Always

  predicate Holds(c: Cond, path: string, userType: Option<string>)
  {
    match c
    case PathIs(p) => path == p
    case PathIsNot(p) => path != p
    case WithCookie => HasUserType(userType)
    case WithoutCookie => !HasUserType(userType)
    case Both(a, b) => Holds(a, path, userType) && Holds(b, path, userType)
    case Always => true
  }

  datatype Rule = Rule(when: Cond, outcome: Decision)

  /** Rule `i` is the one that fires: it holds and no earlier rule does. */
  predicate Selected(rules: seq<Rule>, i: int, path: string, userType: Option<string>)
  {
    && 0 <= i < |rules|
    && Holds(rules[i].when, path, userType)
    && forall j :: 0 <= j < i ==> !Holds(rules[j].when, path, userType)
  }

  /** The index of the first rule that holds, if any. */
  function FirstMatch(rules: seq<Rule>, path: string, userType: Option<string>): (r: Option<nat>)
    ensures r.Some? ==> Selected(rules, r.value, path, userType)
    ensures r.None? ==> forall j :: 0 <= j < |rules| ==> !Holds(rules[j].when, path, userType)
  {
    if |rules| == 0 then None
    else if Holds(rules[0].when, path, userType) then Some(0)
    else match FirstMatch(rules[1..], path, userType)
      case None => None
      case Some(k) => Some(k + 1)
  }

  /** The outcome of the first rule that holds. */
  function Decide(rules: seq<Rule>, path: string, userType: Option<string>): Option<Decision>
  {
    match FirstMatch(rules, path, userType)
    case None => None
    case Some(i) => Some(rules[i].outcome)
  }

  /** The clauses of middleware.js lines 6-20, in source order. */
  function Table(logout: Decision): seq<Rule>
  {
    [ Rule(PathIs(LogoutPath), logout),
      Rule(Both(PathIsNot(LoginPath), WithoutCookie), Redirect(LoginPath, false)),
      Rule(Both(PathIs(LoginPath), WithCookie), Redirect(HomePath, false)),
      Rule(Always, Next) ]
  }

  const SourceTable: seq<Rule> := Table(LogoutFault)
  const IntendedTable: seq<Rule> := Table(Redirect(LoginPath, true))

  /** A table that ends in an unconditional rule selects exactly one rule for every request. */
  lemma ExactlyOneSelected(rules: seq<Rule>, path: string, userType: Option<string>)
    requires |rules| > 0 && rules[|rules| - 1].when == Always
    ensures exists i :: Selected(rules, i, path, userType)
    ensures forall i, j :: Selected(rules, i, path, userType) && Selected(rules, j, path, userType) ==> i == j
    ensures Decide(rules, path, userType).Some?
  {
    var r := FirstMatch(rules, path, userType);
    if r.None? {
      assert Holds(rules[|rules| - 1].when, path, userType);
      assert false;
    }
    assert Selected(rules, r.value, path, userType);
  }

  /** Rule `i` of `Table(logout)` is the one that fires exactly when the guard's `i`-th branch is taken. */
  lemma TableSelects(logout: Decision, path: string, userType: Option<string>)
    ensures Selected(Table(logout), 0, path, userType) <==> path == LogoutPath
    ensures Selected(Table(logout), 1, path, userType) <==> path != LogoutPath && path != LoginPath && !HasUserType(userType)
    ensures Selected(Table(logout), 2, path, userType) <==> path == LoginPath && HasUserType(userType)
    ensures Selected(Table(logout), 3, path, userType) <==>
      (path == LoginPath && !HasUserType(userType)) || (path != LogoutPath && path != LoginPath && HasUserType(userType))
  {
    var t := Table(logout);
    assert |LogoutPath| != |LoginPath|;
    assert Holds(t[0].when, path, userType) <==> path == LogoutPath;
    assert Holds(t[1].when, path, userType) <==> path != LoginPath && !HasUserType(userType);
    assert Holds(t[2].when, path, userType) <==> path == LoginPath && HasUserType(userType);
    assert Holds(t[3].when, path, userType);
  }

  /** The chain of if/return statements computes the first-match outcome of the source's table. */
  lemma GuardFollowsTable(path: string, userType: Option<string>)
    ensures Decide(SourceTable, path, userType) == Some(Guard(path, userType))
    ensures Decide(IntendedTable, path, userType) == Some(IntendedGuard(path, userType))
  {
    DecideTable(LogoutFault, path, userType);
    DecideTable(Redirect(LoginPath, true), path, userType);
  }

  lemma DecideTable(logout: Decision, path: string, userType: Option<string>)
    ensures Decide(Table(logout), path, userType) ==
      Some(if path == LogoutPath then logout else CookieClauses(path, userType))
  {
    var t := Table(logout);
    ExactlyOneSelected(t, path, userType);
    TableSelects(logout, path, userType);
    var i := FirstMatch(t, path, userType).value;
    assert Selected(t, i, path, userType);
  }

  /** The first two clauses overlap on `/logout` without a cookie; order gives the first one. */
  lemma LogoutOverlapsMissingCookie()
    ensures Holds(SourceTable[0].when, LogoutPath, None) && Holds(SourceTable[1].when, LogoutPath, None)
    ensures Decide(SourceTable, LogoutPath, None) == Some(LogoutFault)
  {
  }
}
