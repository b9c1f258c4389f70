/**
 * The route table of Backend/server.js and how Express picks a handler:
 * routes are tried in registration order and the first whose method and
 * path pattern match wins. Express's default path matching is used: a
 * literal segment matches without regard to ASCII case, a `:param` segment
 * matches one non-empty segment, and one trailing slash is allowed.
 */
module Routes {
  import opened Options
  import opened Strings

  datatype Method = Get | Post | OtherMethod

  datatype Segment = Literal(text: string) | Param

  /** The handlers of the server, one per route. */
  datatype Endpoint =
    | RegisterEndpoint
    | LoginEndpoint
    | LogoutEndpoint
    | AuthStatusEndpoint
    | AddExpensesEndpoint
    | ListByTypeEndpoint
    | RecentEndpoint
    | AnalysisEndpoint

  /** A registered route; `pattern` holds the segments after the leading '/'. */
  datatype Route = Route(verb: Method, pattern: seq<Segment>, endpoint: Endpoint)

  /** The chosen handler and the values of the pattern's parameters. */
  datatype Match = Match(endpoint: Endpoint, params: seq<string>)

  const RegisterRoute := Route(Post, [Literal("api"), Literal("register")], RegisterEndpoint)
  const LoginRoute := Route(Post, [Literal("api"), Literal("login")], LoginEndpoint)
  const LogoutRoute := Route(Post, [Literal("api"), Literal("logout")], LogoutEndpoint)
  const AuthStatusRoute := Route(Get, [Literal("api"), Literal("auth-status")], AuthStatusEndpoint)
  const AddExpensesRoute := Route(Post, [Literal("api"), Literal("expenses")], AddExpensesEndpoint)
  const ListByTypeRoute := Route(Get, [Literal("api"), Literal("expenses"), Param], ListByTypeEndpoint)
  const RecentRoute := Route(Get, [Literal("api"), Literal("expenses"), Literal("recent")], RecentEndpoint)
  const AnalysisRoute := Route(Post, [Literal("api"), Literal("expenses"), Literal("analysis")], AnalysisEndpoint)

  /** The routes in the order the server registers them. */
  const ServerRoutes: seq<Route> := [RegisterRoute, LoginRoute, LogoutRoute, AuthStatusRoute,
                                     AddExpensesRoute, ListByTypeRoute, RecentRoute, AnalysisRoute]

  /** The same routes with the recent route registered before the by-type route. */
  const FixedRoutes: seq<Route> := [RegisterRoute, LoginRoute, LogoutRoute, AuthStatusRoute,
                                    AddExpensesRoute, RecentRoute, ListByTypeRoute, AnalysisRoute]

  /** ASCII lower case; no other character changes. */
  function Lower(c: char): char {
    if 'A' <= c <= 'Z' then (c as int + 32) as char else c
  }

  /** Equal up to the case of ASCII letters. */
  predicate SameIgnoringCase(a: string, b: string) {
    |a| == |b| && forall i :: 0 <= i < |a| ==> Lower(a[i]) == Lower(b[i])
  }

  /** The number of `:param` segments. */
  function ParamCount(pattern: seq<Segment>): nat
    decreases |pattern|
  {
    if pattern == [] then 0 else (if pattern[0].Param? then 1 else 0) + ParamCount(pattern[1..])
  }

  /** Matches path segments against pattern segments, collecting the parameters. */
  function MatchSegments(pattern: seq<Segment>, pieces: seq<string>): (r: Option<seq<string>>)
    ensures r.Some? ==> |pieces| == |pattern| && |r.value| == ParamCount(pattern)
    decreases |pattern|
  {
    if pattern == [] then (if pieces == [] then Some([]) else None)
    else if pieces == [] then None
    else
      match pattern[0]
      case Literal(text) =>
        if SameIgnoringCase(pieces[0], text) then MatchSegments(pattern[1..], pieces[1..]) else None
      case Param =>
        if pieces[0] == [] then None
        else match MatchSegments(pattern[1..], pieces[1..])
          case None => None
          case Some(rest) => Some([pieces[0]] + rest)
  }

  /** Matches a whole path, which starts with '/' and may end with one more '/'. */
  function MatchPath(pattern: seq<Segment>, path: string): (r: Option<seq<string>>)
    ensures r.Some? ==> |r.value| == ParamCount(pattern)
  {
    var pieces := Split(path, '/');
    if pieces[0] != [] then None
    else
      var rest := pieces[1..];
      match MatchSegments(pattern, rest)
      case Some(params) => Some(params)
      case None =>
        if rest != [] && rest[|rest| - 1] == [] then MatchSegments(pattern, rest[..|rest| - 1]) else None
  }

  /** The parameters when `route` handles a request `m path`. */
  function Bind(route: Route, m: Method, path: string): (r: Option<seq<string>>)
    ensures r.Some? ==> route.verb == m && |r.value| == ParamCount(route.pattern)
  {
    if route.verb != m then None else MatchPath(route.pattern, path)
  }

  /** The position of the first route that handles the request, or `|routes|`. */
  function FirstIndex(routes: seq<Route>, m: Method, path: string): (k: nat)
    ensures k <= |routes|
    ensures k < |routes| ==> Bind(routes[k], m, path).Some?
    ensures forall j :: 0 <= j < k ==> Bind(routes[j], m, path).None?
    decreases |routes|
  {
    if routes == [] then 0
    else if Bind(routes[0], m, path).Some? then 0
    else 1 + FirstIndex(routes[1..], m, path)
  }

  /** The handler Express runs for `m path`; `None` is the default 404. */
  function Resolve(routes: seq<Route>, m: Method, path: string): (r: Option<Match>)
    ensures r.None? <==> forall j :: 0 <= j < |routes| ==> Bind(routes[j], m, path).None?
    ensures r.Some? ==> exists k :: (&& 0 <= k < |routes|
                                     && Bind(routes[k], m, path) == Some(r.value.params)
                                     && routes[k].endpoint == r.value.endpoint
                                     && forall j :: 0 <= j < k ==> Bind(routes[j], m, path).None?)
  {
    var k := FirstIndex(routes, m, path);
    if k < |routes| then Some(Match(routes[k].endpoint, Bind(routes[k], m, path).value)) else None
  }

  /** A first match is the first match. */
  lemma FirstIndexIs(routes: seq<Route>, m: Method, path: string, k: nat)
    requires k <= |routes|
    requires k < |routes| ==> Bind(routes[k], m, path).Some?
    requires forall j :: 0 <= j < k ==> Bind(routes[j], m, path).None?
    ensures FirstIndex(routes, m, path) == k
  {
  }

  /** A parameter segment accepts whatever a literal segment accepts, and hands it over. */
  lemma {:induction false} ParamCoversLiteral(prefix: seq<Segment>, text: string, suffix: seq<Segment>,
                                              pieces: seq<string>)
    requires text != []
    requires (forall i :: 0 <= i < |prefix| ==> prefix[i].Literal? && prefix[i].text != [])
    requires MatchSegments(prefix + [Literal(text)] + suffix, pieces).Some?
    ensures MatchSegments(prefix + [Param] + suffix, pieces).Some?
    decreases |prefix|
  {
    var lit := prefix + [Literal(text)] + suffix;
    var par := prefix + [Param] + suffix;
    if prefix == [] {
      assert lit[0] == Literal(text) && lit[1..] == suffix;
      assert par[0] == Param && par[1..] == suffix;
      assert |pieces[0]| == |text|;
    } else {
      assert lit[0] == prefix[0] && lit[1..] == prefix[1..] + [Literal(text)] + suffix;
      assert par[0] == prefix[0] && par[1..] == prefix[1..] + [Param] + suffix;
      ParamCoversLiteral(prefix[1..], text, suffix, pieces[1..]);
    }
  }

  /** The same, for whole paths. */
  lemma ParamCoversLiteralPath(text: string, path: string)
    requires text != []
    requires MatchPath([Literal("api"), Literal("expenses"), Literal(text)], path).Some?
    ensures MatchPath([Literal("api"), Literal("expenses"), Param], path).Some?
  {
    var pieces := Split(path, '/');
    var rest := pieces[1..];
    var prefix := [Literal("api"), Literal("expenses")];
    assert [Literal("api"), Literal("expenses"), Literal(text)] == prefix + [Literal(text)] + [];
    assert [Literal("api"), Literal("expenses"), Param] == prefix + [Param] + [];
    if MatchSegments(prefix + [Literal(text)] + [], rest).Some? {
      ParamCoversLiteral(prefix, text, [], rest);
    } else {
      ParamCoversLiteral(prefix, text, [], rest[..|rest| - 1]);
    }
  }

  /**
   * As registered, the recent handler is never reached: every request it
   * would accept is taken by the by-type route first.
   */
  lemma RecentUnreachable(m: Method, path: string)
    ensures Resolve(ServerRoutes, m, path).Some? ==> Resolve(ServerRoutes, m, path).value.endpoint != RecentEndpoint
  {
    var k := FirstIndex(ServerRoutes, m, path);
    ResolveIsFirst(ServerRoutes, m, path);
    if Bind(RecentRoute, m, path).Some? {
      assert k <= 5 by {
        ParamCoversLiteralPath("recent", path);
        assert Bind(ServerRoutes[5], m, path).Some?;
        FirstIndexAtMost(ServerRoutes, m, path, 5);
      }
    } else {
      assert k != 6;
    }
  }

  /** No route after one that handles the request is chosen. */
  lemma {:induction false} FirstIndexAtMost(routes: seq<Route>, m: Method, path: string, k: nat)
    requires k < |routes| && Bind(routes[k], m, path).Some?
    ensures FirstIndex(routes, m, path) <= k
    decreases k
  {
    if k > 0 && Bind(routes[0], m, path).None? {
      FirstIndexAtMost(routes[1..], m, path, k - 1);
    }
  }

  /** The handler chosen is that of the first route that handles the request. */
  lemma ResolveIsFirst(routes: seq<Route>, m: Method, path: string)
    ensures Resolve(routes, m, path).Some? ==>
      FirstIndex(routes, m, path) < |routes| && Resolve(routes, m, path).value.endpoint == routes[FirstIndex(routes, m, path)].endpoint
  {
  }

  /** How a path of three segments splits. */
  lemma SplitThreeSegments(x: string, y: string, z: string)
    requires '/' !in x && '/' !in y && '/' !in z
    ensures Split(['/'] + x + ['/'] + y + ['/'] + z, '/') == ["", x, y, z]
  {
    var b := y + ['/'] + z;
    assert ['/'] + x + ['/'] + y + ['/'] + z == [] + ['/'] + (x + ['/'] + b);
    calc {
      Split([] + ['/'] + (x + ['/'] + b), '/');
    == { SplitAtSeparator([], '/', x + ['/'] + b); }
      Split([], '/') + Split(x + ['/'] + b, '/');
    == { SplitFirstPiece(x, b); }
      [""] + ([x] + Split(b, '/'));
    == { SplitLastTwo(y, z); }
      ["", x, y, z];
    }
  }

  /** A piece without the separator, then the rest. */
  lemma SplitFirstPiece(x: string, b: string)
    requires '/' !in x
    ensures Split(x + ['/'] + b, '/') == [x] + Split(b, '/')
  {
    SplitAtSeparator(x, '/', b);
    SplitWithoutSeparator(x, '/');
  }

  /** Two pieces without the separator. */
  lemma SplitLastTwo(y: string, z: string)
    requires '/' !in y && '/' !in z
    ensures Split(y + ['/'] + z, '/') == [y, z]
  {
    SplitAtSeparator(y, '/', z);
    SplitWithoutSeparator(y, '/');
    SplitWithoutSeparator(z, '/');
  }

  lemma SplitExpensesPath(s: string)
    requires '/' !in s
    ensures Split("/api/expenses/" + s, '/') == ["", "api", "expenses", s]
  {
    assert "/api/expenses/" + s == ['/'] + "api" + ['/'] + "expenses" + ['/'] + s;
    assert '/' !in "api" && '/' !in "expenses";
    SplitThreeSegments("api", "expenses", s);
  }

  /** Every `GET /api/expenses/<s>` with a non-empty segment `s` goes to the by-type handler with `s`. */
  lemma ExpensesSegmentIsType(s: string)
    requires s != [] && '/' !in s
    ensures Resolve(ServerRoutes, Get, "/api/expenses/" + s) == Some(Match(ListByTypeEndpoint, [s]))
  {
    var path := "/api/expenses/" + s;
    SplitExpensesPath(s);
    var rest := ["api", "expenses", s];
    assert Split(path, '/')[1..] == rest;
    assert SameIgnoringCase("api", "api") && SameIgnoringCase("expenses", "expenses");
    assert [Param][1..] == [] && [s][1..] == [] && [s] + [] == [s];
    assert MatchSegments([Param], [s]) == Some([s]);
    assert MatchSegments([Literal("expenses"), Param], ["expenses", s]) == Some([s]);
    assert MatchSegments(ListByTypeRoute.pattern, rest) == Some([s]);
    assert !SameIgnoringCase("expenses", "auth-status");
    assert MatchSegments(AuthStatusRoute.pattern, rest).None?;
    FirstIndexIs(ServerRoutes, Get, path, 5);
  }

  /** The request the frontend means for recent expenses reaches the by-type handler with type "recent". */
  lemma RecentRequestIsTypeQuery()
    ensures Resolve(ServerRoutes, Get, "/api/expenses/recent") == Some(Match(ListByTypeEndpoint, ["recent"]))
  {
    assert "/api/expenses/recent" == "/api/expenses/" + "recent";
    ExpensesSegmentIsType("recent");
  }

  /** The recent route accepts `/api/expenses/<s>` for every spelling `s` of "recent". */
  lemma RecentRouteTakes(s: string)
    requires '/' !in s && SameIgnoringCase(s, "recent")
    ensures Bind(RecentRoute, Get, "/api/expenses/" + s) == Some([])
  {
    SplitExpensesPath(s);
    var rest := ["api", "expenses", s];
    assert Split("/api/expenses/" + s, '/')[1..] == rest;
    assert SameIgnoringCase("api", "api") && SameIgnoringCase("expenses", "expenses");
    assert MatchSegments([Literal("recent")], [s]) == Some([]);
    assert MatchSegments(RecentRoute.pattern, rest) == Some([]);
  }

  /** The recent route accepts the frontend's path for the recent expenses. */
  lemma RecentRouteTakesRecentPath()
    ensures Bind(RecentRoute, Get, "/api/expenses/recent") == Some([])
  {
    assert "/api/expenses/recent" == "/api/expenses/" + "recent";
    assert SameIgnoringCase("recent", "recent");
    RecentRouteTakes("recent");
  }

  /** With the recent route first, every request it accepts reaches it. */
  lemma FixedReachesRecent(m: Method, path: string)
    requires Bind(RecentRoute, m, path).Some?
    ensures Resolve(FixedRoutes, m, path) == Some(Match(RecentEndpoint, []))
  {
    AuthStatusNotRecent(path);
    FirstIndexIs(FixedRoutes, m, path, 5);
  }

  /** No path the recent pattern accepts is accepted by the auth-status pattern. */
  lemma AuthStatusNotRecent(path: string)
    requires MatchPath(RecentRoute.pattern, path).Some?
    ensures MatchPath(AuthStatusRoute.pattern, path).None?
  {
    var rest := Split(path, '/')[1..];
    var r := if MatchSegments(RecentRoute.pattern, rest).Some? then rest else rest[..|rest| - 1];
    assert MatchSegments(RecentRoute.pattern, r).Some?;
    assert RecentRoute.pattern[1..] == [Literal("expenses"), Literal("recent")];
    assert SameIgnoringCase(r[1], "expenses");
    assert |rest[1]| == 8;
  }

  /**
   * Registering the recent route first changes nothing for every request
   * the recent route does not accept.
   */
  lemma FixedAgreesElsewhere(m: Method, path: string)
    requires Bind(RecentRoute, m, path).None?
    ensures Resolve(FixedRoutes, m, path) == Resolve(ServerRoutes, m, path)
  {
    var k := FirstIndex(ServerRoutes, m, path);
    assert forall i :: 0 <= i < 8 && i != 5 && i != 6 ==> FixedRoutes[i] == ServerRoutes[i];
    if k == 5 {
      FirstIndexIs(FixedRoutes, m, path, 6);
    } else {
      assert Bind(FixedRoutes[5], m, path).None? && FixedRoutes[6] == ServerRoutes[5];
      FirstIndexIs(FixedRoutes, m, path, k);
    }
  }
}
