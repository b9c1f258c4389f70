/**
 * The handlers of Backend/server.js over an in-memory database: the user
 * collection as a map keyed by email (the schema's unique index) with an
 * index from ids to emails standing in for `findById`, and the expense
 * collection as a sequence in insertion order. The session check
 * `verifyToken` is the pure `Authorize`; the handlers that write to the
 * database are methods of `Store`, the ones that only read are functions.
 * The clock is the parameter `nowMs` (milliseconds); `jwt.sign` reads it
 * in whole seconds.
 */
module Server {
  import opened Options
  import opened Strings
  import opened Jwt
  import opened Queries
  import opened Routes

  // ---------------------------------------------------------------------
  // documents and messages

  /** `activeToken: {token, createdAt}`; both are null while no session is open. */
  datatype ActiveToken = ActiveToken(token: Option<string>, createdAt: Option<nat>)

  const NoSession := ActiveToken(None, None)

  /** A user document (UserSchema); `id` is its `_id`. */
  datatype User = User(id: nat, name: string, email: string, password: string,
                       companyName: string, industry: string, activeToken: ActiveToken)

  /** One element of the `expenses` array a client posts, including the fields the server overrides. */
  datatype ClientExpense = ClientExpense(
    amount: int,
    category: string,
    description: string,
    date: string,
    username: Option<string>,
    userEmail: Option<string>,
    expenseType: Option<string>,
    createdAt: Option<nat>)

  /** The JSON body of a request; `expenses` is `None` when it is not an array. */
  datatype RequestBody = RequestBody(
    name: string,
    email: string,
    password: string,
    companyName: string,
    industry: string,
    expenses: Option<seq<ClientExpense>>,
    expenseType: Option<string>)

  datatype Request = Request(verb: Method, path: string, authorization: Option<string>, body: RequestBody)

  /** The JSON bodies the handlers send. */
  datatype Body =
    | Failure(message: string)
    | Authenticated(message: string, token: string, name: string, email: string)
    | Confirmation(message: string)
    | Profile(name: string, email: string)
    | ExpenseList(expenses: seq<Expense>)
    | Analysis(groups: seq<Group>, message: string)
    | NotFound

  datatype Response = Response(status: nat, body: Body)

  const NoTokenMessage := "No token provided"
  const InvalidTokenMessage := "Invalid token"
  const InvalidatedMessage := "Token has been invalidated. Please login again."
  const UserExistsMessage := "User already exists"
  const UserNotFoundMessage := "User not found"
  const BadCredentialsMessage := "Invalid credentials"
  const RegisteredMessage := "Registration successful"
  const LoggedInMessage := "Login successful"
  const LoggedOutMessage := "Logged out successfully"
  const BadExpensesMessage := "Invalid expenses data or missing expense type"
  const ExpensesAddedMessage := "Expenses added successfully"
  const AnalysedMessage := "Analysis completed successfully"
  const ServerErrorMessage := "Server error"

  /** The `enum` of ExpenseSchema's required `expenseType`. */
  const ExpenseTypes: set<string> := {
    "Full Expense Tracker",
    "Business Expense Tracker",
    "Personal Expense Tracker",
    "Daily Expense Tracker",
    "Other Expenses"
  }

  /** "recent" is not an expense type. */
  lemma RecentIsNoType()
    ensures "recent" !in ExpenseTypes
  {
    assert forall t :: t in ExpenseTypes ==> |t| > 6;
  }

  /** `process.env.JWT_SECRET || 'your-jwt-secret-key'`. */
  function SecretOf(env: Option<string>): (secret: string)
    ensures secret != []
    ensures env.Some? && env.value != [] ==> secret == env.value
  {
    if env.Some? && env.value != [] then env.value else "your-jwt-secret-key"
  }

  // ---------------------------------------------------------------------
  // the user collection

  /** The email index and the id index describe the same users, and every id was handed out. */
  predicate Indexed(users: map<string, User>, emailById: map<nat, string>, nextId: nat) {
    && (forall em :: em in users ==>
          && users[em].email == em
          && users[em].id < nextId
          && users[em].id in emailById
          && emailById[users[em].id] == em)
    && (forall id :: id in emailById ==> emailById[id] in users && users[emailById[id]].id == id)
  }

  /** Saving a new user under the next id keeps the indexes in agreement. */
  lemma IndexedAdd(users: map<string, User>, emailById: map<nat, string>, nextId: nat, u: User)
    requires Indexed(users, emailById, nextId)
    requires u.email !in users && u.id == nextId
    ensures Indexed(users[u.email := u], emailById[nextId := u.email], nextId + 1)
  {
  }

  /** Saving a changed user under its own email and id keeps the indexes in agreement. */
  lemma IndexedReplace(users: map<string, User>, emailById: map<nat, string>, nextId: nat, u: User)
    requires Indexed(users, emailById, nextId)
    requires u.email in users && u.id == users[u.email].id
    ensures Indexed(users[u.email := u], emailById, nextId)
  {
  }

  /** `User.findById(id)`. */
  function FindById(users: map<string, User>, emailById: map<nat, string>, id: nat): Option<User> {
    if id in emailById && emailById[id] in users then Some(users[emailById[id]]) else None
  }

  /** `findById` finds exactly the user with that id. */
  lemma FindByIdFinds(users: map<string, User>, emailById: map<nat, string>, nextId: nat, id: nat, u: User)
    requires Indexed(users, emailById, nextId)
    ensures FindById(users, emailById, id) == Some(u) <==> u.email in users && users[u.email] == u && u.id == id
  {
  }

  // ---------------------------------------------------------------------
  // verifyToken

  /** `req.headers.authorization?.split(' ')[1]`, when it is a non-empty string. */
  function BearerToken(header: Option<string>): (t: Option<string>)
    ensures t.Some? ==> t.value != [] && ' ' !in t.value
  {
    match header
    case None => None
    case Some(h) =>
      var words := Split(h, ' ');
      if |words| < 2 || words[1] == [] then None else Some(words[1])
  }

  /** The header a client builds, `Bearer ${token}`, carries the token back. */
  lemma BearerOfScheme(scheme: string, t: string)
    requires ' ' !in scheme && ' ' !in t && t != []
    ensures BearerToken(Some(scheme + " " + t)) == Some(t)
  {
    assert scheme + " " + t == scheme + [' '] + t;
    SplitAtSeparator(scheme, ' ', t);
    SplitWithoutSeparator(scheme, ' ');
    SplitWithoutSeparator(t, ' ');
  }

  /** The header the frontend sends, `Bearer ${token}`. */
  lemma BearerOfToken(t: string)
    requires ' ' !in t && t != []
    ensures BearerToken(Some("Bearer " + t)) == Some(t)
  {
    assert "Bearer " + t == "Bearer" + " " + t;
    BearerOfScheme("Bearer", t);
  }

  datatype AuthResult = Authorized(claims: Claims) | Rejected(message: string)

  /**
   * `verifyToken`: the header must carry a token, the token must verify,
   * and the user it names must still hold exactly this token as its
   * active token; otherwise the request is refused with 401.
   */
  function Authorize(users: map<string, User>, emailById: map<nat, string>, secret: string,
                     header: Option<string>, nowMs: nat): (r: AuthResult)
    ensures r.Rejected? ==> r.message in {NoTokenMessage, InvalidTokenMessage, InvalidatedMessage}
    ensures r.Rejected? && r.message == NoTokenMessage <==> BearerToken(header).None?
    ensures r.Rejected? && r.message == InvalidTokenMessage <==>
      BearerToken(header).Some? && Verify(secret, BearerToken(header).value, nowMs / 1000).None?
    ensures r.Rejected? && r.message == InvalidatedMessage <==>
      && BearerToken(header).Some?
      && Verify(secret, BearerToken(header).value, nowMs / 1000).Some?
      && var u := FindById(users, emailById, Verify(secret, BearerToken(header).value, nowMs / 1000).value.id);
         u.None? || u.value.activeToken.token != BearerToken(header)
    ensures r.Authorized? ==>
      && BearerToken(header) == Some(Sign(secret, r.claims))
      && nowMs / 1000 < r.claims.iat + TokenLifetime
      && FindById(users, emailById, r.claims.id).Some?
      && FindById(users, emailById, r.claims.id).value.activeToken.token == BearerToken(header)
  {
    match BearerToken(header)
    case None => Rejected(NoTokenMessage)
    case Some(t) =>
      match Verify(secret, t, nowMs / 1000)
      case None => Rejected(InvalidTokenMessage)
      case Some(c) =>
        match FindById(users, emailById, c.id)
        case None => Rejected(InvalidatedMessage)
        case Some(u) => if u.activeToken.token != Some(t) then Rejected(InvalidatedMessage) else Authorized(c)
  }

  /** The converse: an unexpired token the server signed, and that is its user's active token, passes. */
  lemma AuthorizeComplete(users: map<string, User>, emailById: map<nat, string>, secret: string,
                          header: Option<string>, nowMs: nat, c: Claims)
    requires BearerToken(header) == Some(Sign(secret, c))
    requires nowMs / 1000 < c.iat + TokenLifetime
    requires FindById(users, emailById, c.id).Some?
    requires FindById(users, emailById, c.id).value.activeToken.token == Some(Sign(secret, c))
    ensures Authorize(users, emailById, secret, header, nowMs) == Authorized(c)
  {
    VerifySign(secret, c, nowMs / 1000);
  }

  /**
   * A token that is valid as a JWT but is not its user's active token (an
   * earlier login's, or any token after logout) is refused as invalidated.
   */
  lemma StaleTokenRejected(users: map<string, User>, emailById: map<nat, string>, nextId: nat, secret: string,
                           email: string, c: Claims, nowMs: nat)
    requires Indexed(users, emailById, nextId)
    requires email in users && c.id == users[email].id
    requires users[email].activeToken.token != Some(Sign(secret, c))
    requires nowMs / 1000 < c.iat + TokenLifetime
    ensures Authorize(users, emailById, secret, Some("Bearer " + Sign(secret, c)), nowMs) == Rejected(InvalidatedMessage)
  {
    var t := Sign(secret, c);
    BearerOfToken(t);
    VerifySign(secret, c, nowMs / 1000);
    assert FindById(users, emailById, c.id) == Some(users[email]);
  }

  /** The token an account holds as its active token is accepted, sent as `Bearer <token>`, for 24 hours. */
  lemma ActiveTokenAccepted(users: map<string, User>, emailById: map<nat, string>, nextId: nat, secret: string,
                            email: string, c: Claims, nowMs: nat)
    requires Indexed(users, emailById, nextId)
    requires email in users && c.id == users[email].id
    requires users[email].activeToken.token == Some(Sign(secret, c))
    requires nowMs / 1000 < c.iat + TokenLifetime
    ensures Authorize(users, emailById, secret, Some("Bearer " + Sign(secret, c)), nowMs) == Authorized(c)
  {
    var t := Sign(secret, c);
    BearerOfToken(t);
    assert FindById(users, emailById, c.id) == Some(users[email]);
    AuthorizeComplete(users, emailById, secret, Some("Bearer " + t), nowMs, c);
  }

  /** A token the server signed is refused as invalid once its 24 hours are over, whatever the account holds. */
  lemma ExpiredTokenRejected(users: map<string, User>, emailById: map<nat, string>, secret: string,
                             c: Claims, nowMs: nat)
    requires nowMs / 1000 >= c.iat + TokenLifetime
    ensures Authorize(users, emailById, secret, Some("Bearer " + Sign(secret, c)), nowMs) == Rejected(InvalidTokenMessage)
  {
    var t := Sign(secret, c);
    BearerOfToken(t);
    VerifySign(secret, c, nowMs / 1000);
  }

  /**
   * Every open session holds a token the server signed for that account's
   * own id, email and name, at some second.
   */
  ghost predicate SessionsSigned(users: map<string, User>, secret: string) {
    forall em :: em in users && users[em].activeToken.token.Some? ==>
      exists iat: nat :: users[em].activeToken.token.value == Sign(secret, Claims(users[em].id, em, users[em].name, iat))
  }

  /** Saving a user keeps every session signed when its own session is. */
  lemma SessionsSignedUpdate(users: map<string, User>, secret: string, u: User)
    requires SessionsSigned(users, secret)
    requires u.activeToken.token.Some? ==>
      exists iat: nat :: u.activeToken.token.value == Sign(secret, Claims(u.id, u.email, u.name, iat))
    ensures SessionsSigned(users[u.email := u], secret)
  {
    var users' := users[u.email := u];
    forall em | em in users' && users'[em].activeToken.token.Some?
      ensures exists iat: nat :: users'[em].activeToken.token.value == Sign(secret, Claims(users'[em].id, em, users'[em].name, iat))
    {
      if em != u.email {
        assert users'[em] == users[em];
      }
    }
  }

  /**
   * `GET /api/auth-status` with the active token of a stored account
   * answers that account's own name and email, or, once the token is
   * older than 24 hours, is refused as an invalid token.
   */
  lemma AuthStatusShowsAccount(users: map<string, User>, emailById: map<nat, string>, nextId: nat, secret: string,
                               email: string, t: string, nowMs: nat, expenses: seq<Expense>, body: RequestBody)
    requires Indexed(users, emailById, nextId) && SessionsSigned(users, secret)
    requires email in users && users[email].activeToken.token == Some(t)
    ensures match Authorize(users, emailById, secret, Some("Bearer " + t), nowMs)
            case Authorized(c) =>
              ReadOnlyAnswer(expenses, Match(AuthStatusEndpoint, []), c, body)
                == Some(Response(200, Profile(users[email].name, email)))
            case Rejected(message) => message == InvalidTokenMessage
  {
    var u := users[email];
    var iat: nat :| t == Sign(secret, Claims(u.id, email, u.name, iat));
    var c := Claims(u.id, email, u.name, iat);
    if nowMs / 1000 < iat + TokenLifetime {
      ActiveTokenAccepted(users, emailById, nextId, secret, email, c, nowMs);
    } else {
      ExpiredTokenRejected(users, emailById, secret, c, nowMs);
    }
  }

  /** While an account has no active token, no header is accepted for it. */
  lemma LoggedOutRejected(users: map<string, User>, emailById: map<nat, string>, nextId: nat, secret: string,
                          email: string, header: Option<string>, nowMs: nat)
    requires Indexed(users, emailById, nextId)
    requires email in users && users[email].activeToken.token == None
    ensures match Authorize(users, emailById, secret, header, nowMs)
            case Authorized(c) => c.id != users[email].id
            case Rejected(_) => true
  {
  }

  // ---------------------------------------------------------------------
  // the request handlers that only read

  /** `GET /api/auth-status`: the name and email of the token's claims. */
  function AuthStatusResponse(c: Claims): Response {
    Response(200, Profile(c.name, c.email))
  }

  /** `GET /api/expenses/:expenseType`. */
  function ListByTypeResponse(expenses: seq<Expense>, c: Claims, expenseType: string): (r: Response)
    ensures r.status == 200 && r.body.ExpenseList?
    ensures forall e :: (multiset(r.body.expenses)[e]
                         == if e.username == c.name && e.expenseType == expenseType then multiset(expenses)[e] else 0)
    ensures SortedDesc(r.body.expenses, Date)
  {
    Response(200, ExpenseList(ListByType(expenses, c.name, expenseType)))
  }

  /** `GET /api/expenses/recent`. */
  function RecentResponse(expenses: seq<Expense>, c: Claims): (r: Response)
    ensures r.status == 200 && r.body.ExpenseList?
    ensures var owned := Where(expenses, OfUser(c.name));
      |r.body.expenses| == if |owned| < RecentLimit then |owned| else RecentLimit
    ensures forall e :: e in r.body.expenses ==> e in expenses && e.username == c.name
    ensures multiset(r.body.expenses) <= multiset(Where(expenses, OfUser(c.name)))
    ensures SortedDesc(r.body.expenses, CreatedAt)
    ensures forall x, y :: (x in r.body.expenses
                            && y in multiset(Where(expenses, OfUser(c.name))) - multiset(r.body.expenses)
                            ==> y.createdAt <= x.createdAt)
  {
    Response(200, ExpenseList(Recent(expenses, c.name)))
  }

  /** `POST /api/expenses/analysis`: the request's own `expenses` are not looked at. */
  function AnalysisResponse(expenses: seq<Expense>, c: Claims, body: RequestBody): (r: Response)
    ensures r.status == 200 && r.body.Analysis? && r.body.message == AnalysedMessage
    ensures DistinctIds(r.body.groups)
    ensures forall i :: 0 <= i < |r.body.groups| ==>
      var matching := Where(Where(expenses, OfUserAndType(c.name, body.expenseType)), InCategory(r.body.groups[i].id));
      r.body.groups[i].totalAmount == SumAmounts(matching) && r.body.groups[i].count == |matching|
    ensures forall cat :: cat in Ids(r.body.groups) <==>
      exists e :: e in expenses && e.username == c.name && Some(e.expenseType) == body.expenseType && e.category == cat
  {
    Response(200, Analysis(Aggregate(expenses, c.name, body.expenseType), AnalysedMessage))
  }

  /** The analysis depends on the body only through `expenseType`. */
  lemma AnalysisIgnoresPostedExpenses(expenses: seq<Expense>, c: Claims, b1: RequestBody, b2: RequestBody)
    requires b1.expenseType == b2.expenseType
    ensures AnalysisResponse(expenses, c, b1) == AnalysisResponse(expenses, c, b2)
  {
  }

  /**
   * What the list-by-type handler answers for a type outside the schema's
   * enum (such as "recent"): nothing, since every stored expense has a type
   * of the enum.
   */
  lemma ListUnknownTypeIsEmpty(expenses: seq<Expense>, c: Claims, expenseType: string)
    requires forall e :: e in expenses ==> e.expenseType in ExpenseTypes
    requires expenseType !in ExpenseTypes
    ensures ListByTypeResponse(expenses, c, expenseType) == Response(200, ExpenseList([]))
  {
    var r := ListByType(expenses, c.name, expenseType);
    forall e: Expense ensures multiset(r)[e] == 0 {
      if e.expenseType == expenseType {
        assert e !in expenses;
      }
    }
    assert multiset(r) == multiset{};
  }

  /**
   * Expenses are scoped by the name in the token: two accounts with the
   * same name (names are not unique) see the same expenses and analyses.
   */
  lemma SameNameSameExpenses(expenses: seq<Expense>, c1: Claims, c2: Claims, t: string, body: RequestBody)
    requires c1.name == c2.name
    ensures ListByTypeResponse(expenses, c1, t) == ListByTypeResponse(expenses, c2, t)
    ensures RecentResponse(expenses, c1) == RecentResponse(expenses, c2)
    ensures AnalysisResponse(expenses, c1, body) == AnalysisResponse(expenses, c2, body)
  {
  }

  // ---------------------------------------------------------------------
  // add expenses

  /** The 400 guard: `expenses` is a non-empty array and `expenseType` is truthy. */
  predicate ExpensesRequestWellFormed(body: RequestBody) {
    body.expenses.Some? && |body.expenses.value| > 0 && body.expenseType.Some? && body.expenseType.value != []
  }

  /** One posted element as stored: the server's fields replace whatever the client sent. */
  function StampOne(x: ClientExpense, c: Claims, expenseType: string, nowMs: nat): Expense {
    Expense(c.name, c.email, x.amount, x.category, x.description, x.date, expenseType, nowMs)
  }

  /** The documents `insertMany` receives, in the order they were posted. */
  function Stamp(items: seq<ClientExpense>, c: Claims, expenseType: string, nowMs: nat): (r: seq<Expense>)
    ensures |r| == |items|
    ensures forall i :: 0 <= i < |items| ==>
      && r[i].username == c.name && r[i].userEmail == c.email
      && r[i].expenseType == expenseType && r[i].createdAt == nowMs
      && r[i].amount == items[i].amount && r[i].category == items[i].category
      && r[i].description == items[i].description && r[i].date == items[i].date
    decreases |items|
  {
    if items == [] then [] else [StampOne(items[0], c, expenseType, nowMs)] + Stamp(items[1..], c, expenseType, nowMs)
  }

  /**
   * The answer of a route that only reads the store, for a caller whose
   * token was accepted; `None` for the routes that change the store.
   */
  function ReadOnlyAnswer(expenses: seq<Expense>, found: Match, c: Claims, body: RequestBody): (r: Option<Response>)
    ensures r.Some? <==> found.endpoint in {AuthStatusEndpoint, RecentEndpoint, AnalysisEndpoint}
                         || (found.endpoint == ListByTypeEndpoint && |found.params| == 1)
    ensures r.Some? ==> r.value.status == 200
  {
    match found.endpoint
    case AuthStatusEndpoint => Some(AuthStatusResponse(c))
    case ListByTypeEndpoint =>
      if |found.params| == 1 then Some(ListByTypeResponse(expenses, c, found.params[0])) else None
    case RecentEndpoint => Some(RecentResponse(expenses, c))
    case AnalysisEndpoint => Some(AnalysisResponse(expenses, c, body))
    case _ => None
  }

  /** A request the by-type route takes is answered by the by-type handler with its parameter. */
  lemma ReadOnlyAnswerOfListByType(expenses: seq<Expense>, c: Claims, t: string, body: RequestBody)
    ensures ReadOnlyAnswer(expenses, Match(ListByTypeEndpoint, [t]), c, body) == Some(ListByTypeResponse(expenses, c, t))
  {
  }

  /** The client's own `username`, `userEmail`, `expenseType` and `createdAt` have no effect. */
  lemma {:induction false} StampIgnoresClientFields(a: seq<ClientExpense>, b: seq<ClientExpense>, c: Claims,
                                                     expenseType: string, nowMs: nat)
    requires |a| == |b|
    requires forall i :: 0 <= i < |a| ==>
      a[i].amount == b[i].amount && a[i].category == b[i].category
      && a[i].description == b[i].description && a[i].date == b[i].date
    ensures Stamp(a, c, expenseType, nowMs) == Stamp(b, c, expenseType, nowMs)
    decreases |a|
  {
    if a != [] {
      StampIgnoresClientFields(a[1..], b[1..], c, expenseType, nowMs);
    }
  }

  // ---------------------------------------------------------------------
  // the handlers that write, as relations between the store before and after

  /**
   * `POST /api/register`: a known email is refused and nothing changes;
   * otherwise the user is saved under the next id with a freshly signed
   * token as its active token, and the token is sent back.
   */
  predicate RegisterStep(users: map<string, User>, emailById: map<nat, string>, nextId: nat, secret: string,
                         body: RequestBody, nowMs: nat,
                         users': map<string, User>, emailById': map<nat, string>, nextId': nat, resp: Response)
  {
    if body.email in users then
      resp == Response(400, Failure(UserExistsMessage))
      && users' == users && emailById' == emailById && nextId' == nextId
    else
      var t := Sign(secret, Claims(nextId, body.email, body.name, nowMs / 1000));
      && users' == users[body.email := User(nextId, body.name, body.email, body.password, body.companyName,
                                            body.industry, ActiveToken(Some(t), Some(nowMs)))]
      && emailById' == emailById[nextId := body.email]
      && nextId' == nextId + 1
      && resp == Response(201, Authenticated(RegisteredMessage, t, body.name, body.email))
  }

  /**
   * `POST /api/login`: an unknown email or a different password is refused
   * and nothing changes; otherwise a new token replaces the account's
   * active token and is sent back.
   */
  predicate LoginStep(users: map<string, User>, secret: string, body: RequestBody, nowMs: nat,
                      users': map<string, User>, resp: Response)
  {
    if body.email !in users then
      resp == Response(400, Failure(UserNotFoundMessage)) && users' == users
    else if users[body.email].password != body.password then
      resp == Response(400, Failure(BadCredentialsMessage)) && users' == users
    else
      var u := users[body.email];
      var t := Sign(secret, Claims(u.id, u.email, u.name, nowMs / 1000));
      && users' == users[body.email := u.(activeToken := ActiveToken(Some(t), Some(nowMs)))]
      && resp == Response(200, Authenticated(LoggedInMessage, t, u.name, u.email))
  }

  /** `POST /api/logout` for the claims `c`: the session of user `c.id` is closed; a missing user is a 500. */
  predicate LogoutStep(users: map<string, User>, emailById: map<nat, string>, c: Claims,
                       users': map<string, User>, resp: Response)
  {
    match FindById(users, emailById, c.id)
    case None => resp == Response(500, Failure(ServerErrorMessage)) && users' == users
    case Some(u) =>
      users' == users[u.email := u.(activeToken := NoSession)] && resp == Response(200, Confirmation(LoggedOutMessage))
  }

  /**
   * `POST /api/expenses` for the claims `c`: a malformed body is refused
   * with 400, a type outside the enum fails validation with 500, and
   * otherwise the posted elements are appended, stamped, in order.
   */
  predicate AddExpensesStep(expenses: seq<Expense>, c: Claims, body: RequestBody, nowMs: nat,
                            expenses': seq<Expense>, resp: Response)
  {
    if !ExpensesRequestWellFormed(body) then
      resp == Response(400, Failure(BadExpensesMessage)) && expenses' == expenses
    else if body.expenseType.value !in ExpenseTypes then
      resp == Response(500, Failure(ServerErrorMessage)) && expenses' == expenses
    else
      expenses' == expenses + Stamp(body.expenses.value, c, body.expenseType.value, nowMs)
      && resp == Response(201, Confirmation(ExpensesAddedMessage))
  }

  /** A registration keeps the user indexes in agreement and every session signed. */
  lemma RegisterKeepsInvariants(users: map<string, User>, emailById: map<nat, string>, nextId: nat, secret: string,
                                body: RequestBody, nowMs: nat)
    requires Indexed(users, emailById, nextId) && SessionsSigned(users, secret) && body.email !in users
    ensures var t := Sign(secret, Claims(nextId, body.email, body.name, nowMs / 1000));
      var u := User(nextId, body.name, body.email, body.password, body.companyName, body.industry,
                    ActiveToken(Some(t), Some(nowMs)));
      Indexed(users[body.email := u], emailById[nextId := body.email], nextId + 1)
      && SessionsSigned(users[body.email := u], secret)
  {
    var t := Sign(secret, Claims(nextId, body.email, body.name, nowMs / 1000));
    var u := User(nextId, body.name, body.email, body.password, body.companyName, body.industry,
                  ActiveToken(Some(t), Some(nowMs)));
    IndexedAdd(users, emailById, nextId, u);
    assert u.activeToken.token.value == Sign(secret, Claims(u.id, u.email, u.name, nowMs / 1000));
    SessionsSignedUpdate(users, secret, u);
  }

  /** After a registration, the token sent back is accepted as the new user's for 24 hours. */
  lemma RegisterOpensSession(users: map<string, User>, emailById: map<nat, string>, nextId: nat, secret: string,
                             body: RequestBody, nowMs: nat,
                             users': map<string, User>, emailById': map<nat, string>, nextId': nat, resp: Response,
                             later: nat)
    requires Indexed(users, emailById, nextId)
    requires RegisterStep(users, emailById, nextId, secret, body, nowMs, users', emailById', nextId', resp)
    requires body.email !in users
    requires later / 1000 < nowMs / 1000 + TokenLifetime
    ensures resp.status == 201 && resp.body.Authenticated?
    ensures Authorize(users', emailById', secret, Some("Bearer " + resp.body.token), later)
            == Authorized(Claims(nextId, body.email, body.name, nowMs / 1000))
  {
    var c := Claims(nextId, body.email, body.name, nowMs / 1000);
    var u := User(nextId, body.name, body.email, body.password, body.companyName, body.industry,
                  ActiveToken(Some(Sign(secret, c)), Some(nowMs)));
    IndexedAdd(users, emailById, nextId, u);
    ActiveTokenAccepted(users', emailById', nextId', secret, body.email, c, later);
  }

  /** After a login, the token sent back is accepted as the account's for 24 hours. */
  lemma LoginOpensSession(users: map<string, User>, emailById: map<nat, string>, nextId: nat, secret: string,
                          body: RequestBody, nowMs: nat, users': map<string, User>, resp: Response, later: nat)
    requires Indexed(users, emailById, nextId)
    requires LoginStep(users, secret, body, nowMs, users', resp)
    requires body.email in users && users[body.email].password == body.password
    requires later / 1000 < nowMs / 1000 + TokenLifetime
    ensures resp.status == 200 && resp.body.Authenticated?
    ensures var u := users[body.email];
      Authorize(users', emailById, secret, Some("Bearer " + resp.body.token), later)
        == Authorized(Claims(u.id, u.email, u.name, nowMs / 1000))
  {
    var u := users[body.email];
    var c := Claims(u.id, u.email, u.name, nowMs / 1000);
    IndexedReplace(users, emailById, nextId, u.(activeToken := ActiveToken(Some(Sign(secret, c)), Some(nowMs))));
    ActiveTokenAccepted(users', emailById, nextId, secret, body.email, c, later);
  }

  /** After a login, every other token of the same account is refused as invalidated. */
  lemma LoginEndsEarlierSessions(users: map<string, User>, emailById: map<nat, string>, nextId: nat, secret: string,
                                 body: RequestBody, nowMs: nat, users': map<string, User>, resp: Response,
                                 earlier: Claims, later: nat)
    requires Indexed(users, emailById, nextId)
    requires LoginStep(users, secret, body, nowMs, users', resp)
    requires body.email in users && users[body.email].password == body.password
    requires earlier.id == users[body.email].id && Sign(secret, earlier) != resp.body.token
    requires later / 1000 < earlier.iat + TokenLifetime
    ensures Authorize(users', emailById, secret, Some("Bearer " + Sign(secret, earlier)), later) == Rejected(InvalidatedMessage)
  {
    var u := users[body.email];
    var c := Claims(u.id, u.email, u.name, nowMs / 1000);
    IndexedReplace(users, emailById, nextId, u.(activeToken := ActiveToken(Some(Sign(secret, c)), Some(nowMs))));
    StaleTokenRejected(users', emailById, nextId, secret, body.email, earlier, later);
  }

  /** After a logout, no header is accepted for the user who logged out. */
  lemma LogoutEndsSession(users: map<string, User>, emailById: map<nat, string>, nextId: nat, secret: string,
                          c: Claims, users': map<string, User>, resp: Response, header: Option<string>, later: nat)
    requires Indexed(users, emailById, nextId)
    requires LogoutStep(users, emailById, c, users', resp)
    requires FindById(users, emailById, c.id).Some?
    ensures resp == Response(200, Confirmation(LoggedOutMessage))
    ensures Authorize(users', emailById, secret, header, later).Authorized? ==>
            Authorize(users', emailById, secret, header, later).claims.id != c.id
  {
    var u := FindById(users, emailById, c.id).value;
    IndexedReplace(users, emailById, nextId, u.(activeToken := NoSession));
    LoggedOutRejected(users', emailById, nextId, secret, u.email, header, later);
  }

  /**
   * Adding expenses keeps every stored expense where it was and appends
   * only documents of the caller, stamped with the request's time, one per
   * posted element when the request is accepted.
   */
  lemma AddExpensesAppendsOwn(expenses: seq<Expense>, c: Claims, body: RequestBody, nowMs: nat,
                              expenses': seq<Expense>, resp: Response)
    requires AddExpensesStep(expenses, c, body, nowMs, expenses', resp)
    ensures |expenses| <= |expenses'| && expenses'[..|expenses|] == expenses
    ensures |expenses'| == |expenses| + if resp.status == 201 then |body.expenses.value| else 0
    ensures forall i :: |expenses| <= i < |expenses'| ==>
      expenses'[i].username == c.name && expenses'[i].userEmail == c.email && expenses'[i].createdAt == nowMs
  {
    if resp.status == 201 {
      var added := Stamp(body.expenses.value, c, body.expenseType.value, nowMs);
      assert expenses' == expenses + added;
      forall i | |expenses| <= i < |expenses'|
        ensures expenses'[i].username == c.name && expenses'[i].userEmail == c.email && expenses'[i].createdAt == nowMs
      {
        assert expenses'[i] == added[i - |expenses|];
      }
    }
  }

  // ---------------------------------------------------------------------
  // the database

  class Store {
    var users: map<string, User>
    var emailById: map<nat, string>
    var nextId: nat
    var expenses: seq<Expense>
    const secret: string

    /**
     * The user indexes agree, every open session holds a token signed for
     * its account, and every stored expense passed the schema's enum.
     */
    ghost predicate Valid()
      reads this
    {
      && Indexed(users, emailById, nextId)
      && SessionsSigned(users, secret)
      && forall e :: e in expenses ==> e.expenseType in ExpenseTypes
    }

    constructor (env: Option<string>)
      ensures Valid()
      ensures secret == SecretOf(env)
      ensures users == map[] && emailById == map[] && nextId == 0 && expenses == []
    {
      users := map[];
      emailById := map[];
      nextId := 0;
      expenses := [];
      secret := SecretOf(env);
    }

    /**
     * `POST /api/register`: refuses a known email; otherwise saves the user
     * without a session, signs a token for it and saves that as its active
     * token.
     */
    method Register(body: RequestBody, nowMs: nat) returns (resp: Response)
      requires Valid()
      modifies this
      ensures Valid()
      ensures expenses == old(expenses)
      ensures RegisterStep(old(users), old(emailById), old(nextId), secret, body, nowMs, users, emailById, nextId, resp)
      ensures resp.body.Authenticated? ==>
        var c := Claims(old(nextId), body.email, body.name, nowMs / 1000);
        forall later: nat :: later / 1000 < c.iat + TokenLifetime ==>
          Authorize(users, emailById, secret, Some("Bearer " + resp.body.token), later) == Authorized(c)
    {
      if body.email in users {
        return Response(400, Failure(UserExistsMessage));
      }
      ghost var users0, emailById0, nextId0 := users, emailById, nextId;
      RegisterKeepsInvariants(users, emailById, nextId, secret, body, nowMs);
      var user := User(nextId, body.name, body.email, body.password, body.companyName, body.industry, NoSession);
      users := users[body.email := user];
      emailById := emailById[nextId := body.email];
      nextId := nextId + 1;
      var c := Claims(user.id, user.email, user.name, nowMs / 1000);
      var token := Sign(secret, c);
      user := user.(activeToken := ActiveToken(Some(token), Some(nowMs)));
      users := users[body.email := user];
      assert users == users0[body.email := user];
      resp := Response(201, Authenticated(RegisteredMessage, token, user.name, user.email));
      forall later: nat | later / 1000 < c.iat + TokenLifetime
        ensures Authorize(users, emailById, secret, Some("Bearer " + token), later) == Authorized(c)
      {
        RegisterOpensSession(users0, emailById0, nextId0, secret, body, nowMs, users, emailById, nextId, resp, later);
      }
    }

    /**
     * `POST /api/login`: an unknown email or a different password changes
     * nothing; otherwise a new token replaces the account's active token.
     */
    method Login(body: RequestBody, nowMs: nat) returns (resp: Response)
      requires Valid()
      modifies this
      ensures Valid()
      ensures emailById == old(emailById) && nextId == old(nextId) && expenses == old(expenses)
      ensures LoginStep(old(users), secret, body, nowMs, users, resp)
      ensures resp.body.Authenticated? ==>
        var u := old(users)[body.email];
        var c := Claims(u.id, u.email, u.name, nowMs / 1000);
        && (forall later: nat :: later / 1000 < c.iat + TokenLifetime ==>
              Authorize(users, emailById, secret, Some("Bearer " + resp.body.token), later) == Authorized(c))
        && (forall earlier: Claims, later: nat ::
              earlier.id == u.id && Sign(secret, earlier) != resp.body.token
              && later / 1000 < earlier.iat + TokenLifetime ==>
              Authorize(users, emailById, secret, Some("Bearer " + Sign(secret, earlier)), later)
                == Rejected(InvalidatedMessage))
    {
      if body.email !in users {
        return Response(400, Failure(UserNotFoundMessage));
      }
      var user := users[body.email];
      if user.password != body.password {
        return Response(400, Failure(BadCredentialsMessage));
      }
      var token := Sign(secret, Claims(user.id, user.email, user.name, nowMs / 1000));
      user := user.(activeToken := ActiveToken(Some(token), Some(nowMs)));
      IndexedReplace(users, emailById, nextId, user);
      assert user.activeToken.token.value == Sign(secret, Claims(user.id, user.email, user.name, nowMs / 1000));
      SessionsSignedUpdate(users, secret, user);
      users := users[body.email := user];
      resp := Response(200, Authenticated(LoggedInMessage, token, user.name, user.email));
      var c := Claims(user.id, user.email, user.name, nowMs / 1000);
      forall later: nat | later / 1000 < c.iat + TokenLifetime
        ensures Authorize(users, emailById, secret, Some("Bearer " + token), later) == Authorized(c)
      {
        ActiveTokenAccepted(users, emailById, nextId, secret, body.email, c, later);
      }
      forall earlier: Claims, later: nat | (earlier.id == user.id && Sign(secret, earlier) != token
                                            && later / 1000 < earlier.iat + TokenLifetime)
        ensures Authorize(users, emailById, secret, Some("Bearer " + Sign(secret, earlier)), later)
                == Rejected(InvalidatedMessage)
      {
        StaleTokenRejected(users, emailById, nextId, secret, body.email, earlier, later);
      }
    }

    /** `POST /api/logout` after `verifyToken` let `c` through: closes the session of user `c.id`. */
    method Logout(c: Claims) returns (resp: Response)
      requires Valid()
      modifies this
      ensures Valid()
      ensures emailById == old(emailById) && nextId == old(nextId) && expenses == old(expenses)
      ensures LogoutStep(old(users), old(emailById), c, users, resp)
      ensures FindById(old(users), old(emailById), c.id).Some? ==>
        forall header, later :: (Authorize(users, emailById, secret, header, later).Authorized? ==>
                                 Authorize(users, emailById, secret, header, later).claims.id != c.id)
    {
      match FindById(users, emailById, c.id)
      case None =>
        resp := Response(500, Failure(ServerErrorMessage));
      case Some(user) =>
        IndexedReplace(users, emailById, nextId, user.(activeToken := NoSession));
        SessionsSignedUpdate(users, secret, user.(activeToken := NoSession));
        users := users[user.email := user.(activeToken := NoSession)];
        resp := Response(200, Confirmation(LoggedOutMessage));
        forall header, later
          ensures Authorize(users, emailById, secret, header, later).Authorized? ==>
                  Authorize(users, emailById, secret, header, later).claims.id != c.id
        {
          LoggedOutRejected(users, emailById, nextId, secret, user.email, header, later);
        }
    }

    /**
     * `POST /api/expenses` after `verifyToken` let `c` through: a malformed
     * body is refused with 400, a type outside the enum fails validation
     * (500) and stores nothing, and otherwise every posted element is
     * appended, in order.
     */
    method AddExpenses(c: Claims, body: RequestBody, nowMs: nat) returns (resp: Response)
      requires Valid()
      modifies this
      ensures Valid()
      ensures users == old(users) && emailById == old(emailById) && nextId == old(nextId)
      ensures AddExpensesStep(old(expenses), c, body, nowMs, expenses, resp)
    {
      if !ExpensesRequestWellFormed(body) {
        return Response(400, Failure(BadExpensesMessage));
      }
      var expenseType := body.expenseType.value;
      if expenseType !in ExpenseTypes {
        return Response(500, Failure(ServerErrorMessage));
      }
      var added := Stamp(body.expenses.value, c, expenseType, nowMs);
      expenses := expenses + added;
      resp := Response(201, Confirmation(ExpensesAddedMessage));
    }

    /**
     * One request through the route table: no route gives Express's 404,
     * the register and login routes run directly, and every other route
     * runs behind `verifyToken`.
     */
    method Serve(routes: seq<Route>, req: Request, nowMs: nat) returns (resp: Response)
      requires Valid()
      requires routes == ServerRoutes || routes == FixedRoutes
      modifies this
      ensures Valid()
      ensures var found := Resolve(routes, req.verb, req.path);
        && (found.None? ==>
              resp == Response(404, NotFound)
              && users == old(users) && emailById == old(emailById) && nextId == old(nextId)
              && expenses == old(expenses))
        && (found.Some? && found.value.endpoint !in {RegisterEndpoint, LoginEndpoint}
            && Authorize(old(users), old(emailById), secret, req.authorization, nowMs).Rejected? ==>
              resp == Response(401, Failure(Authorize(old(users), old(emailById), secret, req.authorization, nowMs).message))
              && users == old(users) && expenses == old(expenses))
        && (found.Some? && found.value.endpoint != AddExpensesEndpoint ==> expenses == old(expenses))
        && (found.Some? && found.value.endpoint !in {RegisterEndpoint, LoginEndpoint, LogoutEndpoint} ==>
              users == old(users) && emailById == old(emailById) && nextId == old(nextId))
        && (found.Some? && found.value.endpoint != RegisterEndpoint ==>
              emailById == old(emailById) && nextId == old(nextId))
      ensures var found := Resolve(routes, req.verb, req.path);
        var auth := Authorize(old(users), old(emailById), secret, req.authorization, nowMs);
        && (found.Some? && found.value.endpoint == RegisterEndpoint ==>
              RegisterStep(old(users), old(emailById), old(nextId), secret, req.body, nowMs, users, emailById, nextId, resp))
        && (found.Some? && found.value.endpoint == LoginEndpoint ==>
              LoginStep(old(users), secret, req.body, nowMs, users, resp))
        && (found.Some? && found.value.endpoint == LogoutEndpoint && auth.Authorized? ==>
              LogoutStep(old(users), old(emailById), auth.claims, users, resp))
        && (found.Some? && found.value.endpoint == AddExpensesEndpoint && auth.Authorized? ==>
              AddExpensesStep(old(expenses), auth.claims, req.body, nowMs, expenses, resp))
      ensures var found := Resolve(routes, req.verb, req.path);
        var auth := Authorize(old(users), old(emailById), secret, req.authorization, nowMs);
        found.Some? && auth.Authorized? && ReadOnlyAnswer(old(expenses), found.value, auth.claims, req.body).Some? ==>
          resp == ReadOnlyAnswer(old(expenses), found.value, auth.claims, req.body).value
    {
      var found := Resolve(routes, req.verb, req.path);
      if found.None? {
        return Response(404, NotFound);
      }
      var endpoint := found.value.endpoint;
      if endpoint == RegisterEndpoint {
        resp := Register(req.body, nowMs);
        return;
      }
      if endpoint == LoginEndpoint {
        resp := Login(req.body, nowMs);
        return;
      }
      var auth := Authorize(users, emailById, secret, req.authorization, nowMs);
      if auth.Rejected? {
        return Response(401, Failure(auth.message));
      }
      var c := auth.claims;
      var answer := ReadOnlyAnswer(expenses, found.value, c, req.body);
      if answer.Some? {
        resp := answer.value;
      } else if endpoint == LogoutEndpoint {
        resp := Logout(c);
      } else if endpoint == AddExpensesEndpoint {
        resp := AddExpenses(c, req.body, nowMs);
      } else {
        ListByTypeHasOneParam(routes, req.verb, req.path);
        assert false;
      }
    }
  }

  /**
   * The frontend's request for the recent expenses, served by the route
   * table as registered: an authorized caller always gets an empty list,
   * whatever the store holds.
   */
  method ServeRecentRequest(s: Store, header: Option<string>, body: RequestBody, nowMs: nat) returns (resp: Response)
    requires s.Valid()
    modifies s
    ensures s.Valid()
    ensures Authorize(old(s.users), old(s.emailById), s.secret, header, nowMs).Authorized? ==>
      resp == Response(200, ExpenseList([])) && s.expenses == old(s.expenses)
  {
    RecentRequestIsTypeQuery();
    var users, emailById, expenses := s.users, s.emailById, s.expenses;
    var req := Request(Get, "/api/expenses/recent", header, body);
    resp := s.Serve(ServerRoutes, req, nowMs);
    var auth := Authorize(users, emailById, s.secret, header, nowMs);
    if auth.Authorized? {
      ReadOnlyAnswerOfListByType(expenses, auth.claims, "recent", body);
      RecentIsNoType();
      ListUnknownTypeIsEmpty(expenses, auth.claims, "recent");
    }
  }

  /**
   * The same request with the recent route registered before the by-type
   * route: an authorized caller gets its own newest expenses.
   */
  method ServeRecentRequestFixed(s: Store, header: Option<string>, body: RequestBody, nowMs: nat)
    returns (resp: Response)
    requires s.Valid()
    modifies s
    ensures s.Valid()
    ensures var auth := Authorize(old(s.users), old(s.emailById), s.secret, header, nowMs);
      && (auth.Authorized? ==> resp == RecentResponse(old(s.expenses), auth.claims))
      && (auth.Rejected? ==> resp == Response(401, Failure(auth.message)))
    ensures s.users == old(s.users) && s.expenses == old(s.expenses)
  {
    var req := Request(Get, "/api/expenses/recent", header, body);
    assert Resolve(FixedRoutes, Get, req.path) == Some(Match(RecentEndpoint, [])) by {
      RecentRouteTakesRecentPath();
      FixedReachesRecent(Get, req.path);
    }
    var auth := Authorize(s.users, s.emailById, s.secret, header, nowMs);
    if auth.Authorized? {
      ReadOnlyAnswerOfRecent(s.expenses, auth.claims, body);
    }
    resp := s.Serve(FixedRoutes, req, nowMs);
  }

  /** A request the recent route takes is answered by the recent handler. */
  lemma ReadOnlyAnswerOfRecent(expenses: seq<Expense>, c: Claims, body: RequestBody)
    ensures ReadOnlyAnswer(expenses, Match(RecentEndpoint, []), c, body) == Some(RecentResponse(expenses, c))
  {
  }

  /** The by-type route has exactly one parameter, `:expenseType`. */
  lemma ListByTypeHasOneParam(routes: seq<Route>, m: Method, path: string)
    requires routes == ServerRoutes || routes == FixedRoutes
    ensures Resolve(routes, m, path).Some? && Resolve(routes, m, path).value.endpoint == ListByTypeEndpoint
            ==> |Resolve(routes, m, path).value.params| == 1
  {
    var k := FirstIndex(routes, m, path);
    if k < |routes| && routes[k].endpoint == ListByTypeEndpoint {
      assert routes[k] == ListByTypeRoute;
      assert ParamCount(ListByTypeRoute.pattern[2..]) == 1;
      assert ParamCount(ListByTypeRoute.pattern) == 1;
    }
  }
}
