# DUHACKS expense tracker: a Dafny model of its core

The system is an expense tracker. An Express/MongoDB backend keeps user accounts and expense records. Each account has one active session token, and a React frontend posts expenses and shows analyses.

This project models three parts of it:

- **The backend's session handling and expense handlers** (`Backend/server.js`).
  - The user collection is a map keyed by email, plus an id index that stands in for `findById`.
  - The expense collection is a sequence in insertion order.
  - Register, login, logout and add-expenses are methods of the class `Store`.
  - The `verifyToken` guard and the handlers that only read the database are functions.
  - The route table is a sequence of routes. It is dispatched the way Express does it: first match in registration order.
- **The analysis page's data handling** (`Finance/src/pages/AnalysisPage.tsx`):
  - the cleaning of the generated insight text into points;
  - the split of a numbered point into its number and text;
  - the label/value projections the charts and the insight request use.
- **The local expense form** (`Finance/src/pages/expense.tsx`): `addExpense` and `getTotalExpense`, as a class with the component's state fields.

Modules:

- `Options`, `Strings` (`strings.dfy`): JavaScript `split`, `join`, `trim` and `includes`, string comparison, and decimal digits.
- `Jwt` (`jwt.dfy`): the signed tokens.
- `Queries` (`queries.dfy`): the expense documents, filters, sorts, `limit` and `$group`.
- `Routes` (`routes.dfy`): Express route matching.
- `Server` (`server.dfy`): the database and the handlers.
- `AnalysisPage` (`analysis_page.dfy`).
- `ExpenseTracker` (`expense_tracker.dfy`).

How the external parts are modelled:

- The clock is the parameter `nowMs`, a reading in milliseconds. `jwt.sign` stamps `iat` as `nowMs / 1000`.
- The environment variable `JWT_SECRET` is the parameter of `Store`'s constructor.
- The text returned by the insight service is the parameter of `AnalysisPage.Insights`. It is `None` when the request fails.
- `parseFloat(amount)` in the expense form is the parameter `parsedAmount`.

## Model

| member | source | states |
|---|---|---|
| Strings.Split | Finance/src/pages/AnalysisPage.tsx:109 | `split` yields at least one piece, and no piece contains the separator |
| Strings.JoinSplit | Finance/src/pages/AnalysisPage.tsx:268-272 | joining the pieces of a split with the same separator gives back the string |
| Strings.Join | Finance/src/pages/AnalysisPage.tsx:272 | `rest.join('.')`; Strings.JoinSplit proves that it undoes `split` with the same separator |
| Strings.SplitWithoutSeparator | Backend/server.js:75 | a string without the separator splits into itself alone |
| Strings.SplitAtSeparator | Backend/server.js:75 | splitting at one separator splits the two sides independently |
| Strings.TrimStart | Finance/src/pages/AnalysisPage.tsx:111 | the result is a suffix of the string that starts with non-whitespace or is empty |
| Strings.TrimStartDropsWhitespace | Finance/src/pages/AnalysisPage.tsx:111 | everything the leading trim drops is whitespace |
| Strings.TrimEnd | Finance/src/pages/AnalysisPage.tsx:116 | the result is a prefix of the string that ends with non-whitespace or is empty |
| Strings.TrimEndDropsWhitespace | Finance/src/pages/AnalysisPage.tsx:116 | everything the trailing trim drops is whitespace |
| Strings.IsJsWhitespace | Finance/src/pages/AnalysisPage.tsx:116 | the characters `trim()` removes (tab, line feed, vertical tab, form feed, carriage return, space, no-break space, the Unicode space separators, the line and paragraph separators and the byte-order mark); Strings.TrimStartDropsWhitespace and Strings.TrimEmptyIff prove that the trim drops exactly these |
| Strings.Trim | Finance/src/pages/AnalysisPage.tsx:116 | `line.trim()`; Strings.TrimIsInfix proves that it is the piece of the line between leading and trailing whitespace, and Strings.TrimIdempotent that trimming twice changes nothing |
| Strings.TrimSlice | Finance/src/pages/AnalysisPage.tsx:116 | `trim()` returns the piece of the string that starts where the leading whitespace ends |
| Strings.PrefixOfSuffix | Finance/src/pages/AnalysisPage.tsx:116 | proof helper: a prefix of a suffix of a string is a slice of the string |
| Strings.TrimTrailing | Finance/src/pages/AnalysisPage.tsx:116 | everything after that piece is whitespace |
| Strings.TrimEnds | Finance/src/pages/AnalysisPage.tsx:116 | a non-empty trim starts and ends with non-whitespace |
| Strings.TrimIsInfix | Finance/src/pages/AnalysisPage.tsx:116 | `trim()` returns a contiguous piece of the string, with non-whitespace at both ends |
| Strings.TrimIdempotent | Finance/src/pages/AnalysisPage.tsx:116 | trimming a trimmed line changes nothing |
| Strings.TrimEmptyIff | Finance/src/pages/AnalysisPage.tsx:111 | `line.trim() !== ""` fails exactly for lines made only of whitespace |
| Strings.Contains | Finance/src/pages/AnalysisPage.tsx:112-114 | `line.includes(phrase)`; Strings.ContainsInfix proves that a phrase inside a piece of a line is inside the line |
| Strings.ContainsInfix | Finance/src/pages/AnalysisPage.tsx:112-114 | a phrase inside a piece of a line is inside the line |
| Strings.LexLe | Backend/server.js:240 | string comparison, character by character, a prefix first; Strings.LexLeTotal and Strings.LexLeTransitive prove that it is a total preorder, so `sort({date: -1})` is defined |
| Strings.LexLeTotal | Backend/server.js:240 | string comparison, the order of `sort({date: -1})`, is total |
| Strings.LexLeTransitive | Backend/server.js:240 | string comparison is transitive |
| Strings.Show | Backend/server.js:66-72 | the numbers `id` and `iat` are written into a token as non-empty strings of decimal digits |
| Strings.ParseNat | Backend/server.js:82 | reads a decimal number back from a token; Strings.ParseShow proves that it undoes Strings.Show |
| Strings.ParseShow | Backend/server.js:82 | reading a number back from a token gives the number that was written |
| Strings.LeadingDigits | Finance/src/pages/AnalysisPage.tsx:265 | the leading run of `\d` is all digits and is followed by a non-digit or the end |
| Strings.LeadingDigitsIsRun | Finance/src/pages/AnalysisPage.tsx:265 | a run of digits followed by a non-digit or the end is the leading run |
| Jwt.Escape | Backend/server.js:66-72 | an escaped claim holds no '.' and no space |
| Jwt.ReadFieldEscapeChar | Backend/server.js:82 | reading past one escaped character gives that character back |
| Jwt.ReadFieldOfField | Backend/server.js:82 | a field written into a token is read back, with the rest of the token |
| Jwt.Field | Backend/server.js:66-72 | one escaped payload field ended by '.'; Jwt.ReadFieldOfField proves that Jwt.ReadField reads it back, with the rest of the token |
| Jwt.ReadField | Backend/server.js:82 | reads one field of a token; Jwt.ReadFieldOfField proves that it reads back the field written, with the rest of the token |
| Jwt.Fields | Backend/server.js:66-72 | the payload `{id, email, name}` with the issue time; Jwt.FieldsCancel proves that it can be cancelled from the front of two tokens, and Jwt.DecodeSign that it decodes back to the claims |
| Jwt.Signature | Backend/server.js:66-72 | stands in for the HMAC of the payload under `JWT_SECRET`; Jwt.SignInjective and Jwt.OtherSecretRejected prove that different claims give different tokens and that another secret rejects the token |
| Jwt.Sign | Backend/server.js:66-72 | a token is non-empty and has no space, so it survives `split(' ')[1]` |
| Jwt.Verify | Backend/server.js:82 | a token verifies only if it is this secret's signature of the claims returned and is not yet 24 hours old |
| Jwt.DecodeSign | Backend/server.js:82 | the payload of a signed token decodes to its claims |
| Jwt.Decode | Backend/server.js:82 | reading the claims out of a token; Jwt.DecodeSign proves that it returns the claims of every token the server signed |
| Jwt.VerifySign | Backend/server.js:82 | a signed token verifies with its own claims exactly while `nowSec < iat + 86400` |
| Jwt.SignInjective | Backend/server.js:66-72 | different claims, which include `iat`, give different tokens |
| Jwt.EscapeInjective | Backend/server.js:66-72 | escaping loses no information |
| Jwt.OtherSecretRejected | Backend/server.js:82 | a token signed under one secret never verifies under another |
| Jwt.FieldsCancel | Backend/server.js:82 | equal payloads followed by two tails force the tails to be equal |
| Queries.Satisfies | Backend/server.js:237-239 | the filters of `find`/`$match`: the caller's username (line 253), the username and the expense type (lines 237-239 and 274-277), or one category; what passes them is exactly what Queries.WhereMembers and Queries.WhereMultiset prove the query keeps |
| Queries.Where | Backend/server.js:237-240 | a `find`/`$match` never returns more documents than the collection holds |
| Queries.WhereAppend | Backend/server.js:237-239 | a filter over a collection with one more document keeps that document exactly when it matches |
| Queries.WhereMultiset | Backend/server.js:237-240 | the filter keeps every matching document as often as it occurs, and no other |
| Queries.WhereMembers | Backend/server.js:237-240 | a document is in the result exactly when it is in the collection and matches |
| Queries.SumAmounts | Backend/server.js:282 | `$sum: "$amount"` over a list of documents; Queries.SumAppend proves that one more document adds its amount, and Queries.CategoryIsSelection that a group's total is this sum over that category's documents |
| Queries.SumAppend | Backend/server.js:282 | `$sum` over one more document adds its amount |
| Queries.Precedes | Backend/server.js:240 | the key `sort({date: -1})` compares (as strings), or that of `sort({createdAt: -1})` (line 254); Queries.PrecedesTotal and Queries.PrecedesTransitive prove that it is a total preorder, and Queries.SortDesc sorts by it |
| Queries.PrecedesTotal | Backend/server.js:240-254 | any two documents can be ordered by a descending sort key |
| Queries.PrecedesTransitive | Backend/server.js:240-254 | the descending sort order is transitive |
| Queries.SortedDesc | Backend/server.js:240-254 | every document comes before every later one in the key's descending order; Queries.SortDesc, Queries.ListByType and Queries.Recent prove that their results have it |
| Queries.PrecedesSorted | Backend/server.js:240-254 | what sorts before the head of a sorted list sorts before all of it |
| Queries.HeadPrecedesInsert | Backend/server.js:240-254 | the head of a sorted list sorts before every document of its tail with one more document inserted |
| Queries.Insert | Backend/server.js:240-254 | inserting into a sorted list keeps it sorted and adds exactly that document |
| Queries.SortDesc | Backend/server.js:240-254 | `sort({f: -1})` returns the same documents, sorted descending on `f` |
| Queries.ListByType | Backend/server.js:237-240 | exactly the caller's documents of that type, each as often as stored, sorted by `date` descending |
| Queries.Recent | Backend/server.js:253-255 | at most 5 of the caller's documents, and exactly 5 when there are that many; newest `createdAt` first; none left out is newer than one returned |
| Queries.TakeSorted | Backend/server.js:254-255 | `limit(n)` of a sorted list keeps its `n` greatest elements, in order |
| Queries.Take | Backend/server.js:255 | `limit(n)` keeps the first `n` documents, or all when there are fewer |
| Queries.OnlyOwned | Backend/server.js:253 | what the recent query returns belongs to the caller and is stored |
| Queries.Ids | Finance/src/pages/AnalysisPage.tsx:91 | `data.map(item => item._id)`; AnalysisPage.ProjectionKeepsGroups proves one label per group, position by position, and Queries.Aggregate that the labels are exactly the categories present |
| Queries.IndexOf | Backend/server.js:280-284 | the first group with that `_id`, or none |
| Queries.AddTo | Backend/server.js:280-284 | what `$group` does with one more document; Queries.AddToGroups proves that it keeps the groups of the longer collection |
| Queries.CategoryTotal | Backend/server.js:282 | the `totalAmount` of the `_id: c` group; Queries.CategoryIsSelection proves that it is `$sum` of the amounts of exactly the documents of category `c`, and Queries.CategoryAppend that one more document changes only its own category |
| Queries.CategoryCount | Backend/server.js:283 | the `count` of the `_id: c` group; Queries.CategoryIsSelection proves that it is the number of documents of category `c`, and Queries.CategoryCountPositive that it is positive exactly when some document has that category |
| Queries.DistinctIds | Backend/server.js:280-284 | no two groups share an `_id`; Queries.Accumulate and Queries.Aggregate prove that `$group` yields groups with this property |
| Queries.CategoryAppend | Backend/server.js:282-283 | one more document changes only its own category's total and count |
| Queries.CategoryTotalOfNone | Backend/server.js:282 | a category no document carries sums to zero |
| Queries.CategoryCountPositive | Backend/server.js:281-283 | a category counts at least one document exactly when some document carries it |
| Queries.CategoryIsSelection | Backend/server.js:280-284 | a category's total and count are the sum of amounts and the number of the documents in that category |
| Queries.GroupsOf | Backend/server.js:280-284 | the groups are one per category present, with that category's total and count; Queries.Accumulate proves that `$group` yields them and Queries.AddToGroups that each document keeps them |
| Queries.Accumulate | Backend/server.js:280-284 | `$group` yields one group per category present, with distinct `_id`s, each with its total and count |
| Queries.AddToGroups | Backend/server.js:280-284 | folding one more document into the groups keeps them the groups of the longer collection |
| Queries.Aggregate | Backend/server.js:272-286 | every category of the caller's documents of that type appears exactly once, with the sum of their amounts and their number; no other category appears |
| Queries.GroupsAreSelections | Backend/server.js:272-286 | the groups of the `$match` result agree, per category, with filtering the collection by user, type and category |
| Routes.SameIgnoringCase | Backend/server.js:234-251 | the comparison Express makes of a literal path segment, ignoring ASCII case; Routes.RecentRouteTakes, Routes.ExpensesSegmentIsType and Routes.AuthStatusNotRecent prove which requests the literal routes accept with it |
| Routes.MatchSegments | Backend/server.js:234-251 | a match consumes one path segment per pattern segment and binds one value per `:param` |
| Routes.MatchPath | Backend/server.js:234-251 | a matching path binds one value per `:param` |
| Routes.ParamCount | Backend/server.js:234 | the number of `:param` segments of a pattern; Routes.MatchPath proves that a match binds exactly that many values |
| Routes.Bind | Backend/server.js:99-297 | a route handles a request only with its own method, binding its parameters |
| Routes.FirstIndex | Backend/server.js:99-297 | the route Express runs is the first registered one that matches |
| Routes.Resolve | Backend/server.js:99-297 | no handler (the 404) exactly when no route matches; otherwise the handler of the first matching route |
| Routes.FirstIndexIs | Backend/server.js:99-297 | proof helper: a route that matches after none before it has matched is the first matching one |
| Routes.ParamCoversLiteral | Backend/server.js:234-251 | a `:param` segment accepts every segment a literal segment accepts |
| Routes.ParamCoversLiteralPath | Backend/server.js:234-251 | every path `/api/expenses/recent` accepts, `/api/expenses/:expenseType` accepts |
| Routes.RecentUnreachable | Backend/server.js:234-251 | as registered, no request ever reaches the recent handler |
| Routes.FirstIndexAtMost | Backend/server.js:99-297 | no route registered after one that matches is chosen |
| Routes.ResolveIsFirst | Backend/server.js:99-297 | proof helper: the handler chosen is that of the first matching route |
| Routes.SplitThreeSegments | Backend/server.js:234-251 | a path of three segments splits into those segments |
| Routes.SplitFirstPiece | Backend/server.js:234-251 | a path piece without '/' splits off as one segment |
| Routes.SplitLastTwo | Backend/server.js:234-251 | two pieces without '/' around one '/' split into those two segments |
| Routes.SplitExpensesPath | Backend/server.js:234 | `/api/expenses/<s>` splits into `api`, `expenses` and `s` |
| Routes.ExpensesSegmentIsType | Backend/server.js:234-248 | every `GET /api/expenses/<s>` reaches the by-type handler with type `s` |
| Routes.RecentRequestIsTypeQuery | Backend/server.js:234-263 | `GET /api/expenses/recent` reaches the by-type handler with type "recent" |
| Routes.FixedReachesRecent | Backend/server.js:251-263 | with the recent route registered first, every request it accepts reaches it |
| Routes.RecentRouteTakes | Backend/server.js:251 | the recent route takes `/api/expenses/<s>` for every spelling `s` of "recent", up to case |
| Routes.RecentRouteTakesRecentPath | Backend/server.js:251 | the recent route takes the path the frontend requests |
| Routes.AuthStatusNotRecent | Backend/server.js:197-263 | no path is accepted by both the auth-status and the recent pattern |
| Routes.FixedAgreesElsewhere | Backend/server.js:99-297 | moving the recent route first changes the handler of no other request |
| Server.RecentIsNoType | Backend/server.js:48-54 | "recent" is not one of the five expense types |
| Server.SecretOf | Backend/server.js:9 | the secret is `JWT_SECRET` when set and non-empty, else the default; never empty |
| Server.Indexed | Backend/server.js:27 | emails and ids of stored users are one-to-one (the unique index on `email`), and every id was handed out; Server.IndexedAdd and Server.IndexedReplace prove that saving a user keeps it, and Server.FindByIdFinds relies on it |
| Server.IndexedAdd | Backend/server.js:109-117 | a new user saved under the next id keeps emails and ids one-to-one |
| Server.IndexedReplace | Backend/server.js:123-127 | saving a changed user under its own id keeps emails and ids one-to-one |
| Server.FindById | Backend/server.js:83 | `User.findById`; Server.FindByIdFinds proves that it finds exactly the stored user with that id |
| Server.ReadOnlyAnswerOfListByType | Backend/server.js:234-248 | proof helper: a request matched by the by-type route is answered by the by-type handler with its parameter |
| Server.ReadOnlyAnswerOfRecent | Backend/server.js:251-263 | proof helper: a request matched by the recent route is answered by the recent handler |
| Server.FindByIdFinds | Backend/server.js:83 | `findById` finds exactly the user with that id |
| Server.BearerToken | Backend/server.js:75-79 | the token taken from the header is non-empty and has no space |
| Server.BearerOfScheme | Backend/server.js:75 | any one-word scheme with no space, a space and the token yields the token: the header's first word is never compared with "Bearer" |
| Server.BearerOfToken | Backend/server.js:75 | the header `Bearer <token>` yields the token |
| Server.Authorize | Backend/server.js:74-96 | a refusal carries one of the three messages; "No token provided" exactly when the header has no second word; "Invalid token" exactly when that word does not verify; "Token has been invalidated" exactly when it verifies but its user is gone or holds another token; acceptance means a signed, unexpired token that its user holds as the active token |
| Server.AuthorizeComplete | Backend/server.js:74-96 | conversely, such a token is always accepted, with its own claims |
| Server.StaleTokenRejected | Backend/server.js:84-89 | a valid token that is not its user's active token is refused as invalidated |
| Server.ActiveTokenAccepted | Backend/server.js:74-96 | the account's active token, sent as `Bearer <token>`, is accepted within its 24 hours |
| Server.LoggedOutRejected | Backend/server.js:84-89 | while an account has no active token, no request is accepted for it |
| Server.ExpiredTokenRejected | Backend/server.js:69-70 | a token the server signed is refused as "Invalid token" once its 24 hours are over |
| Server.SessionsSigned | Backend/server.js:66-72 | every stored active token is one `generateToken` signed for that account; Server.SessionsSignedUpdate proves that saving a user keeps it, and Server.AuthStatusShowsAccount uses it |
| Server.SessionsSignedUpdate | Backend/server.js:117-127 | saving a user whose session is signed keeps every session signed |
| Server.AuthStatusShowsAccount | Backend/server.js:197-202 | `GET /api/auth-status` with a stored account's active token answers 200 with that account's own name and email, or "Invalid token" once the token is over 24 hours old |
| Server.AuthStatusResponse | Backend/server.js:197-202 | 200 with the name and email of the token's claims; Server.AuthStatusShowsAccount proves that for a stored account's active token these are the account's own |
| Server.ListByTypeResponse | Backend/server.js:234-248 | 200 with exactly the caller's expenses of the type, by `date` descending |
| Server.RecentResponse | Backend/server.js:251-263 | 200 with 5 of the caller's stored expenses, or all of them when there are fewer, newest first; none left out is newer than one returned |
| Server.AnalysisResponse | Backend/server.js:266-297 | 200 with the success message and one group per category of the caller's expenses of the posted type, each category once, with the sum and number of those expenses; no other category appears |
| Server.AnalysisIgnoresPostedExpenses | Backend/server.js:268-277 | the posted `expenses` do not affect the analysis |
| Server.ListUnknownTypeIsEmpty | Backend/server.js:234-248 | for a type outside the enum, such as "recent", the by-type handler answers an empty list |
| Server.SameNameSameExpenses | Backend/server.js:238-275 | two accounts with the same name see the same expenses and analyses |
| Server.StampOne | Backend/server.js:216-222 | one posted element as stored, with the caller's name and email, the request's type and time overriding the element's own; Server.Stamp proves this position by position for the whole batch, and Server.StampIgnoresClientFields that the client's own values have no effect |
| Server.Stamp | Backend/server.js:216-222 | one stored document per posted element, in order: user, email, type and time from the server, the rest from the element |
| Server.StampIgnoresClientFields | Backend/server.js:216-222 | the client's own `username`, `userEmail`, `expenseType` and `createdAt` have no effect |
| Server.ExpensesRequestWellFormed | Backend/server.js:208 | the 400 guard; Server.AddExpensesStep refuses exactly the bodies it rejects |
| Server.ReadOnlyAnswer | Backend/server.js:197-297 | the four reading routes answer 200; the routes that write have no read-only answer |
| Server.RegisterStep | Backend/server.js:99-140 | a known email gives 400 and changes nothing; otherwise one user is added under the next id, holding the token sent back with 201 as its active token |
| Server.LoginStep | Backend/server.js:143-179 | an unknown email or a wrong password gives 400 with its message and changes nothing; otherwise only the account's active token is replaced by the token sent back with 200 |
| Server.LogoutStep | Backend/server.js:182-194 | the caller's session is closed with 200; a user that is gone gives 500 and changes nothing |
| Server.AddExpensesStep | Backend/server.js:205-231 | a malformed body gives 400 and a type outside the enum 500, storing nothing; otherwise the stamped documents are appended in order with 201 |
| Server.RegisterKeepsInvariants | Backend/server.js:109-127 | a registration keeps emails and ids one-to-one and every session signed |
| Server.RegisterOpensSession | Backend/server.js:118-133 | after a registration, the token sent back is accepted as the new user's for 24 hours |
| Server.LoginOpensSession | Backend/server.js:158-172 | after a login, the token sent back is accepted as the account's for 24 hours |
| Server.LoginEndsEarlierSessions | Backend/server.js:161-166 | after a login, every other token of the account is refused as invalidated |
| Server.LogoutEndsSession | Backend/server.js:182-191 | after a logout, no request is accepted for that user |
| Server.AddExpensesAppendsOwn | Backend/server.js:216-224 | stored expenses stay in place; only the caller's documents, one per posted element, stamped with the request's time, are appended |
| Server.Store.Valid | Backend/server.js:25-60 | the user indexes agree (unique email, line 27), every session is signed (Server.SessionsSigned), and every stored expense has one of the five types of the enum (lines 48-54); the constructor establishes it and every Store method preserves it |
| Server.Store.constructor | Backend/server.js:9 | an empty database whose secret is `JWT_SECRET` or the default |
| Server.Store.Register | Backend/server.js:99-140 | the response and new database are those of Server.RegisterStep; the token sent back is accepted for 24 hours |
| Server.Store.Login | Backend/server.js:143-179 | the response and new database are those of Server.LoginStep; the new token is accepted, and every other token of the account is refused as invalidated |
| Server.Store.Logout | Backend/server.js:182-194 | the response and new users are those of Server.LogoutStep; nothing else changes; afterwards no request is accepted for that account |
| Server.Store.AddExpenses | Backend/server.js:205-231 | the response and new expenses are those of Server.AddExpensesStep; the users do not change |
| Server.Store.Serve | Backend/server.js:74-297 | no route gives 404; every route but register and login is refused with the guard's 401 and an unchanged store when the token is refused; register, login, logout and add-expenses give the response and new state of their step; only add-expenses changes the expenses; an accepted reading route answers its handler's response over the stored expenses |
| Server.ServeRecentRequest | Backend/server.js:234-263 | through the route table as registered, an accepted request for recent expenses always gets an empty list |
| Server.ServeRecentRequestFixed | Backend/server.js:251-263 | with the recent route registered first, an accepted request for recent expenses gets the caller's newest expenses, and a refused one the guard's 401 |
| Server.ListByTypeHasOneParam | Backend/server.js:234 | the by-type route binds exactly one parameter |
| AnalysisPage.Amounts | Finance/src/pages/AnalysisPage.tsx:92 | `amounts[i]` is `data[i].totalAmount`, with one value per group |
| AnalysisPage.Project | Finance/src/pages/AnalysisPage.tsx:141-174 | the chart labels and values; AnalysisPage.ProjectionKeepsGroups and AnalysisPage.ProjectedLabelsDistinct prove that they line up with the groups and repeat no label |
| AnalysisPage.ProjectionKeepsGroups | Finance/src/pages/AnalysisPage.tsx:141-145 | labels and values line up with the groups and lose only the counts |
| AnalysisPage.ProjectedLabelsDistinct | Finance/src/pages/AnalysisPage.tsx:141-170 | the server's groups give a chart with no label twice |
| AnalysisPage.Filter | Finance/src/pages/AnalysisPage.tsx:110-115 | the filter never adds lines |
| AnalysisPage.FilterMembers | Finance/src/pages/AnalysisPage.tsx:110-115 | the filter keeps exactly the lines it accepts |
| AnalysisPage.Keep | Finance/src/pages/AnalysisPage.tsx:110-115 | the filter's test; AnalysisPage.KeptLineTrimmed proves that a kept line trims to a non-empty line free of the three phrases |
| AnalysisPage.MapLines | Finance/src/pages/AnalysisPage.tsx:116 | `map` gives one result per line, position by position |
| AnalysisPage.TrimAll | Finance/src/pages/AnalysisPage.tsx:116 | each line of the result is the trim of the line at that position |
| AnalysisPage.FreeOf | Finance/src/pages/AnalysisPage.tsx:112-114 | the line contains none of the phrases; AnalysisPage.FreeOfInfix and AnalysisPage.TrimmedFreeOf prove that a piece of such a line, and its trim, contain none either |
| AnalysisPage.FreeOfBoilerplate | Finance/src/pages/AnalysisPage.tsx:112-114 | the line contains none of the three phrases the page filters out; AnalysisPage.KeptLineTrimmed proves that a kept line's trim keeps this |
| AnalysisPage.FreeOfInfix | Finance/src/pages/AnalysisPage.tsx:112-114 | a piece of a line without the phrases has none of them either |
| AnalysisPage.TrimmedFreeOf | Finance/src/pages/AnalysisPage.tsx:112-116 | trimming a line without the phrases leaves it without them |
| AnalysisPage.KeptLineTrimmed | Finance/src/pages/AnalysisPage.tsx:110-116 | the trim of a kept line is non-empty, trimmed and free of the three phrases |
| AnalysisPage.CleanInsights | Finance/src/pages/AnalysisPage.tsx:108-116 | every point is non-empty, its own trim and free of the three phrases; there are no more points than lines |
| AnalysisPage.Positions | Finance/src/pages/AnalysisPage.tsx:110-115 | the positions of exactly the accepted lines, in increasing order |
| AnalysisPage.FilterIsPositions | Finance/src/pages/AnalysisPage.tsx:110-115 | the filter keeps the accepted lines in their original order |
| AnalysisPage.CleanedAreKeptLinesTrimmed | Finance/src/pages/AnalysisPage.tsx:108-116 | the points are exactly the trims of the non-blank, phrase-free lines, in order |
| AnalysisPage.Insights | Finance/src/pages/AnalysisPage.tsx:106-121 | a failed request gives exactly the fallback message; otherwise every point is a cleaned line |
| AnalysisPage.IsNumberedIff | Finance/src/pages/AnalysisPage.tsx:265 | an insight is numbered exactly when one or more digits at its start are followed by '.' |
| AnalysisPage.View | Finance/src/pages/AnalysisPage.tsx:265-281 | a point is shown numbered exactly when it is numbered; then `number` is a non-empty digit string and `number + "." + rest.join(".")` is the insight; otherwise it is shown as it is |
| AnalysisPage.NumberedSplit | Finance/src/pages/AnalysisPage.tsx:268-272 | for a numbered insight, the first piece is its leading digits, and the rest joins back to what follows the first '.' |
| AnalysisPage.IsNumbered | Finance/src/pages/AnalysisPage.tsx:265 | `/^\d+\./.test(insight)`; AnalysisPage.IsNumberedIff proves that it holds exactly when one or more leading digits are followed by '.' |
| ExpenseTracker.TotalAppend | Finance/src/pages/expense.tsx:33-41 | the total after one more entry is the old total plus its amount |
| ExpenseTracker.Total | Finance/src/pages/expense.tsx:41 | the `reduce` from the left; ExpenseTracker.TotalIsSum proves that it is the sum of the amounts |
| ExpenseTracker.SumFromRight | Finance/src/pages/expense.tsx:41 | the reference sum of the amounts, folded from the right; ExpenseTracker.TotalIsSum proves that the page's `reduce` equals it |
| ExpenseTracker.SumFromRightAppend | Finance/src/pages/expense.tsx:41 | the reference sum over one more entry adds its amount |
| ExpenseTracker.TotalIsSum | Finance/src/pages/expense.tsx:40-42 | the `reduce` equals the sum of the amounts folded from the right |
| ExpenseTracker.Tracker.constructor | Finance/src/pages/expense.tsx:13-17 | an empty list and four empty fields |
| ExpenseTracker.Tracker.TotalExpense | Finance/src/pages/expense.tsx:40-42 | the total is the sum of the amounts, and 0 for no expenses |
| ExpenseTracker.Tracker.Filled | Finance/src/pages/expense.tsx:20 | no input is empty, the negation of the page's `!amount || !category || !description || !date` gate; ExpenseTracker.Tracker.AddExpense proves that an entry is added exactly when it holds |
| ExpenseTracker.Tracker.AddExpense | Finance/src/pages/expense.tsx:19-38 | with an empty field nothing changes; otherwise exactly one entry (clock id, parsed amount, entered fields) is appended, the four fields are cleared, and the total grows by the amount |

## Left out

- Logging, CORS, the database connection, the error middleware and `listen` (Backend/server.js:11-22, 300-306) are framework I/O. So is the 500 "Internal server error" that the error middleware answers for an unparsable JSON body.
- The `try`/`catch` 500 answers of register, login, add-expenses and the three reading handlers for database failures are left out: the in-memory store does not fail. The 500 of add-expenses for an expense type outside the schema's enum is modelled. So is the 500 of logout when the user is gone, which cannot happen after the guard let the request through.
- Jwt.Sign: the HMAC-SHA256 signature and base64url encoding are replaced by an injective, deterministic encoding. A token does not verify under another secret or with other claims. Forging a token is not modelled.
- Jwt.Verify: jsonwebtoken's other checks (algorithm, `nbf`, malformed headers) are left out. Only the signature and the 24-hour `exp` window are modelled.
- Server.Store.Login: two logins of one account in the same second give the same token, as `jwt.sign` does. The contract therefore refuses only the earlier tokens that differ from the new one.
- `decodeURIComponent` of the by-type parameter (Backend/server.js:236) is left out. The type is the raw path segment, and its 500 for a malformed percent-escape is not modelled.
- Routing for the HEAD method, query strings and percent-encoded paths are left out.
- Missing JSON fields in register and login are modelled as strings, never as `undefined`. An absent `email` makes Mongo's `findOne({})` match any user, and that case is not modelled.
- Queries.Aggregate: an absent `expenseType` matches no stored document, because every stored document has one. An `amount` that is not a number is not modelled, and amounts are integers.
- Server.Stamp: every document of one request gets the same `createdAt`, the parameter `nowMs`. The source reads the clock once per element with `new Date()` (Backend/server.js:221), so the documents of one request can differ by milliseconds. That matters only for the order of `sort({createdAt: -1})` among them.
- Server.Store.Register, Server.Store.Login: `activeToken.createdAt` is `nowMs`, the same reading `jwt.sign` uses for `iat`. The source reads the clock separately for `createdAt: new Date()` (Backend/server.js:125, 164) and inside `jwt.sign` (Backend/server.js:120, 159). `createdAt` is stored but never read.
- Server.ClientExpense: `amount`, `category`, `description` and `date` are always present. The schema does not require them (Backend/server.js:41-44), so the source stores a document with a missing field as it is. `$group` then puts a missing category under `_id: null`, `$sum` skips a missing amount, and `sort({date: -1})` puts a missing date last. None of that is modelled.
- Server.Store.AddExpenses: the client's `amount` is taken as an integer. Mongoose's cast of strings and numbers and its rejection of values it cannot cast are not modelled. Mongoose's `_id` and `__v` fields are not modelled.
- Floating point: amounts are `int`, and `toFixed(2)` (Finance/src/pages/expense.tsx:96, 101) is left out. ExpenseTracker.Tracker.AddExpense takes `parseFloat(amount)` as a parameter, so `NaN` is not modelled.
- The frontend's requests (axios, `localStorage`, navigation) are network and browser effects. So is the request to `GET /api/expenses/analysis/:type` (Finance/src/pages/AnalysisPage.tsx:61), for which the server has no route.
- `generateColors` (Finance/src/pages/AnalysisPage.tsx:128-137) draws random colours. It is left out with the rest of the rendering.
- Requests are served one at a time. Interleaved `await`s of concurrent requests, such as two logins racing, are not modelled.
- Register's two `save` calls are one step in the model. The moment between them, when the new user exists without a session, cannot be observed by another request here.

## Findings

| source | as written | input that shows it | evidently intended | confidence | as-written member | corrected member |
|---|---|---|---|---|---|---|
| Backend/server.js:234-263 | `GET /api/expenses/:expenseType` is registered before `GET /api/expenses/recent`, so Express hands every `/api/expenses/recent` request to the by-type handler with type "recent". That type matches no stored expense, so the answer is always an empty list. | `GET /api/expenses/recent` with a valid token, for a user with stored expenses | the recent handler answers with the user's five newest expenses | not executed | Routes.RecentUnreachable, Routes.RecentRequestIsTypeQuery, Server.ServeRecentRequest | Routes.FixedReachesRecent, Routes.FixedAgreesElsewhere, Server.ServeRecentRequestFixed |

`Routes.FixedRoutes` registers the recent route first. `Server.Store.Serve` takes the route table as a parameter, so it can run either table. `Server.ServeRecentRequestFixed` sends the frontend's request through `FixedRoutes`. An accepted caller then gets `Server.RecentResponse`: 5 of its own expenses, or all of them when it has fewer, newest first, with none left out newer than one returned.
