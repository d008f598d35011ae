/** The access-gate route table: acceptance and route selection. */
module RouteTable {
  import opened Wrappers
  import opened Ordering

  const ROUTES_SCHEMA := "stackkit.access-gate-routes/v1"

  /** `policy` stands for the exposure, privilege, method and opt-in fields, which selection never reads. */
  datatype Route = Route(id: string, host: string, path: string, exactPath: bool, policy: string)

  datatype Table = Table(schema: string, routes: seq<Route>)

  function Rule(r: Route): (string, string, bool) {
    (r.host, r.path, r.exactPath)
  }

  function DuplicateKey(r: Route): string {
    r.host + [NUL] + (r.path + [NUL] + Flag(r.exactPath))
  }

  /** Equal keys mean equal rules although the path itself is not known to be free of NUL. */
  lemma DuplicateKeyIdentifiesRule(a: Route, b: Route)
    requires NulFree(a.host) && NulFree(b.host)
    ensures DuplicateKey(a) == DuplicateKey(b) <==> Rule(a) == Rule(b)
  {
    var x, y := Tail(a), Tail(b);
    assert DuplicateKey(a) == Joined((a.host, x)) && DuplicateKey(b) == Joined((b.host, y));
    JoinedKeysOrderLikePairs((a.host, x), (b.host, y));
    TailIdentifiesPath(a, b);
  }

  function Flag(exact: bool): string { if exact then "true" else "false" }
  function Tail(r: Route): string { r.path + [NUL] + Flag(r.exactPath) }

  /** The flag can be read off the end, so the path is determined even where it contains NUL. */
  lemma TailIdentifiesPath(a: Route, b: Route)
    ensures Tail(a) == Tail(b) <==> a.path == b.path && a.exactPath == b.exactPath
  {
    var x, y := Tail(a), Tail(b);
    assert x[|x| - 5] == (if a.exactPath then NUL else 'f');
    assert y[|y| - 5] == (if b.exactPath then NUL else 'f');
    assert a.path == x[..|x| - 1 - |Flag(a.exactPath)|] && b.path == y[..|y| - 1 - |Flag(b.exactPath)|];
  }

  /** The table is accepted: every route passes its own check and no two routes are the same rule. */
  ghost predicate Accepted(table: Table, accepts: Route -> bool) {
    && table.schema == ROUTES_SCHEMA
    && (forall r :: r in table.routes ==> accepts(r))
    && Distinct(Map(Rule, table.routes))
  }

  /** `accepts` is the per-route check; all that matters of it is that a host pattern admits no NUL. */
  method Validate(table: Table, accepts: Route -> bool) returns (ok: bool)
    requires forall r :: accepts(r) ==> NulFree(r.host)
    ensures ok <==> Accepted(table, accepts)
  {
    if table.schema != ROUTES_SCHEMA { return false; }
    for i := 0 to |table.routes|
      invariant forall j :: 0 <= j < i ==> accepts(table.routes[j])
    {
      if !accepts(table.routes[i]) {
        assert table.routes[i] in table.routes;
        return false;
      }
    }
    KeysDistinctLikeRules(table, accepts);
    ok := AllDistinct(Map(DuplicateKey, table.routes));
  }

  lemma KeysDistinctLikeRules(table: Table, accepts: Route -> bool)
    requires forall r :: accepts(r) ==> NulFree(r.host)
    ensures (forall r :: r in table.routes ==> accepts(r)) ==>
      (Distinct(Map(DuplicateKey, table.routes)) <==> Distinct(Map(Rule, table.routes)))
  {
    if forall r :: r in table.routes ==> accepts(r) {
      forall i, j | 0 <= i < j < |table.routes|
        ensures DuplicateKey(table.routes[i]) == DuplicateKey(table.routes[j]) <==>
          Rule(table.routes[i]) == Rule(table.routes[j])
      {
        assert table.routes[i] in table.routes && table.routes[j] in table.routes;
        DuplicateKeyIdentifiesRule(table.routes[i], table.routes[j]);
      }
    }
  }

  predicate HasPrefix(s: string, prefix: string) {
    |prefix| <= |s| && s[..|prefix|] == prefix
  }

  predicate Matches(r: Route, host: string, path: string) {
    r.host == host && if r.exactPath then path == r.path else HasPrefix(path, r.path)
  }

  /** Router priority: twice the path length, one more for an exact rule. */
  function RuleLength(r: Route): nat {
    |r.path| * 2 + if r.exactPath then 1 else 0
  }

  /** The selected route is matching and no matching route of the list is longer. */
  ghost predicate Selects(routes: seq<Route>, host: string, path: string, answer: Option<Route>) {
    match answer
    case None => forall r :: r in routes ==> !Matches(r, host, path)
    case Some(best) =>
      best in routes && Matches(best, host, path) &&
      forall r :: r in routes && Matches(r, host, path) ==> RuleLength(r) <= RuleLength(best)
  }

  method Lookup(table: Table, host: string, path: string) returns (answer: Option<Route>)
    ensures Selects(table.routes, host, path, answer)
  {
    answer := None;
    for i := 0 to |table.routes|
      invariant Selects(table.routes[..i], host, path, answer)
    {
      var route := table.routes[i];
      assert table.routes[..i + 1] == table.routes[..i] + [route];
      if route.host != host { continue; }
      if route.exactPath {
        if path != route.path { continue; }
      } else if !HasPrefix(path, route.path) { continue; }
      if answer == None || RuleLength(route) > RuleLength(answer.value) {
        answer := Some(route);
      }
    }
    assert table.routes[..|table.routes|] == table.routes;
  }

  /** On an accepted table two matching routes of equal length are one route. */
  lemma NoTies(table: Table, accepts: Route -> bool, a: Route, b: Route, host: string, path: string)
    requires Accepted(table, accepts)
    requires a in table.routes && b in table.routes
    requires Matches(a, host, path) && Matches(b, host, path) && RuleLength(a) == RuleLength(b)
    ensures a == b
  {
    assert a.exactPath == b.exactPath && |a.path| == |b.path|;
    assert Rule(a) == Rule(b);
    var i :| 0 <= i < |table.routes| && table.routes[i] == a;
    var j :| 0 <= j < |table.routes| && table.routes[j] == b;
    assert Map(Rule, table.routes)[i] == Map(Rule, table.routes)[j];
  }

  /** Every selection on an accepted table is the one strictly longest match. */
  lemma SelectionIsStrictlyLongest(table: Table, accepts: Route -> bool, host: string, path: string, best: Route)
    requires Accepted(table, accepts) && Selects(table.routes, host, path, Some(best))
    ensures forall r :: r in table.routes && Matches(r, host, path) && r != best ==> RuleLength(r) < RuleLength(best)
  {
    forall r | r in table.routes && Matches(r, host, path) && r != best ensures RuleLength(r) < RuleLength(best) {
      if RuleLength(r) == RuleLength(best) { NoTies(table, accepts, r, best, host, path); }
    }
  }

  /** Reordering the routes of an accepted table never changes what is selected. */
  lemma LookupIgnoresRouteOrder(
      table: Table, reordered: seq<Route>, accepts: Route -> bool,
      host: string, path: string, a: Option<Route>, b: Option<Route>)
    requires Accepted(table, accepts) && multiset(table.routes) == multiset(reordered)
    requires Selects(table.routes, host, path, a) && Selects(reordered, host, path, b)
    ensures a == b
  {
    forall r ensures r in table.routes <==> r in reordered {
      assert r in table.routes <==> r in multiset(table.routes);
      assert r in reordered <==> r in multiset(reordered);
    }
    if a.Some? && b.Some? { NoTies(table, accepts, a.value, b.value, host, path); }
  }
}
