# Dashboard API: query building and authentication, modelled in Dafny

The dashboard's backend (`api/index.js`) has three pieces of logic around its
Express, PostgreSQL and crypto plumbing. This project models them:

- **`GET /api/bar-data`** (module `BarData`). The handler starts from a fixed
  `SELECT SUM(...) ... WHERE 1=1` text. For age and for gender it appends
  ` AND <column> = $n` and pushes the value onto `queryParams`. When both dates
  are supplied it appends ` AND "day" BETWEEN $n AND $n+1` and pushes the start
  and end dates. `n` is the array's length plus one, read just before the
  push. The single aggregate row is then shaped into `{A..F}`, and a null
  total becomes 0.
- **`GET /api/line-chart-data`** (module `LineChart`). A missing `feature` is
  answered with 400 before any query. Otherwise the statement is built by
  interpolating the raw values between quotes. The date filter has four cases:
  both ends, start only, end only, neither. An empty result gives 404; otherwise
  each row becomes `{date, timeSpent}`, in order.
- **`POST /api/signup`, `/api/login`, `/api/logout`** (module `Auth`).
  Transitions over the `users` table, kept in a `UserStore` class. Sign-up
  checks the name is free, hashes the password and inserts. Login looks the
  name up, checks the password against the stored hash with bcrypt's `compare`
  and sets a token cookie. Logout clears the cookie.

Shared pieces:

- `Casing` holds the gender normaliser `gender[0].toUpperCase() + gender.slice(1)`
  and `feature.toLowerCase()`.
- `Placeholders` says what a `$n` text means to the store. It scans the text
  into characters and numbered parameters, and binds parameter `$k` to the
  `k`-th array value.
- `Common` holds `Option`, JavaScript truthiness of a request field
  (`Supplied`: present and not `""`), store results and responses.

The query builders are imperative methods (`BuildBarQuery`, `BuildLineQuery`).
Like the handlers, they append to the statement text step by step.
`BuildBarQuery` also extends its parameter sequence at each step, as the
handler pushes to `queryParams`. The line-chart handler has no parameter array.
Each is proved equal to a declarative function (`BarSql`/`BarParams`, `LineSql`),
and the properties are proved about those functions. The sign-up and login
handlers are methods over `UserStore`. They are proved to match the pure
transition functions `SignUp` and `Login`.

The database, bcrypt and the request's I/O are parameters. The bar-data and
line-chart handlers take the store as a function from statement text (and
parameters) to a `DbResult`. `UserStore.online == false` stands for a store
whose queries throw. bcrypt is a `Crypto` value holding a `hash` and a
`compare` function. `parseInt(_, 10)` is a function parameter.

The model follows the code as written. In particular:

- The line-chart handler writes `feature` into `SUM("...")` after
  `toLowerCase()`, without checking it against a list of columns. It writes
  age, gender and the dates into the SQL text between single quotes, without
  escaping them, and sends no parameter array. `LineChart.AgeChangesText`
  records this.
- Gender normalisation upper-cases only the first character, so "MALE" stays
  "MALE" (`Casing.CapitalizeKeepsLaterCase`).
- Sign-up looks the name up and then inserts, in two separate queries. An
  error thrown by the insert is answered with 500 "Internal server error.",
  like any other store error.

## Model

| member | source | states |
|---|---|---|
| `Casing.Capitalize` | api/index.js:56 | the normalised gender has the same length, its first character upper-cased and every later character unchanged; defined only on a non-empty value, as `if (gender)` guarantees |
| `Casing.CapitalizeIdempotent` | api/index.js:56 | normalising a normalised gender changes nothing |
| `Casing.CapitalizeIgnoresFirstCase` | api/index.js:108 | two genders that differ only in the case of the first letter normalise to the same value |
| `Casing.CapitalizeKeepsLaterCase` | api/index.js:56 | only the first letter is normalised: "male" becomes "Male", "MALE" stays "MALE", and the two differ |
| `Casing.LowerString` | api/index.js:96 | `toLowerCase()` keeps the length and lower-cases every character at its own position |
| `Casing.LowerStringIdempotent` | api/index.js:96 | lower-casing an already lower-cased feature name changes nothing |
| `BarData.BarParams` | api/index.js:49-64 | one parameter per supplied filter: the age first, then the normalised gender, and the start and end dates as the last two only when both are supplied |
| `BarData.BarPlaceholdersMatchParams` | api/index.js:49-64 | scanning the statement finds the placeholders `$1 .. $n` in order, where n is the length of the parameter array |
| `BarData.BarBindsFilters` | api/index.js:49-66 | binding the statement to its parameter array puts each supplied filter's own value right after that filter's comparison text |
| `BarData.BarNoFilters` | api/index.js:38-49 | with no filter supplied, the statement is the base text and the parameter array is empty |
| `BarData.DateRangeNeedsBothEnds` | api/index.js:59-64 | the date-range clause is present exactly when both dates are supplied; it comes last and binds the start date, then the end date |
| `BarData.BarSqlIgnoresValues` | api/index.js:50-64 | the statement text depends only on which filters are supplied, never on their values |
| `BarData.BuildBarQuery` | api/index.js:38-64 | the step-by-step `+=`/`push` building, with each placeholder numbered from the array's current length, yields exactly `BarSql` and `BarParams` |
| `BarData.OrZero` | api/index.js:68 | `value ?? 0`: the value when present, 0 when null |
| `BarData.ShapeTotals` | api/index.js:67-74 | all six fields A..F are filled, each with its own column's total when present and 0 when null |
| `BarData.ShapeAllNull` | api/index.js:67-74 | an all-null aggregate row gives six zeros |
| `BarData.ShapeAllPresent` | api/index.js:67-74 | totals that are all present are passed through unchanged |
| `BarData.BarResponse` | api/index.js:66-80 | 200 with the first row shaped exactly when the query returned a row; otherwise 500 "Internal Server Error" |
| `BarData.BarDataHandler` | api/index.js:34-81 | the handler sends `BarSql` with `BarParams` to the store and answers with the response for what the store returned |
| `LineChart.DateClauseCases` | api/index.js:113-119 | both dates give exactly one BETWEEN clause; start only gives one `>=` clause; end only gives one `<=` clause; neither gives no date clause |
| `LineChart.AgeGenderClauses` | api/index.js:101-110 | the age clause is first exactly when age is supplied; a gender clause is present exactly when gender is supplied and carries the normalised value; only the last clause can be a date clause |
| `LineChart.AgeInterpolated` | api/index.js:102-104 | the age value is written verbatim into the statement, between the quotes after `"age" = ` |
| `LineChart.AgeChangesText` | api/index.js:95-124 | two requests that differ only in the age value send different statements, so the value is part of the SQL code |
| `LineChart.BuildLineQuery` | api/index.js:95-121 | the `+=` building of the statement yields exactly `LineSql`: the head, the clauses in order and the `GROUP BY`/`ORDER BY` tail |
| `LineChart.AppendDateFilter` | api/index.js:112-119 | the if/else-if chain appends exactly the clause of the date case that applies, or nothing |
| `LineChart.ToPoints` | api/index.js:136-139 | one point per row, in order; point i has row i's date and `parseInt` of row i's total |
| `LineChart.ToPointsKeepsDays` | api/index.js:121-139 | the response's dates are the rows' dates in the same order, so the store's ascending order carries over |
| `LineChart.LineResponse` | api/index.js:124-144 | a store error gives 500, no rows give 404 with the not-found message, and otherwise 200 with the feature and the mapped rows |
| `LineChart.LineChartHandler` | api/index.js:84-145 | a missing or empty `feature` gives 400 and no query is issued; otherwise `LineSql` is issued and the response is `LineResponse` of its result |
| `Auth.SignUp` | api/index.js:147-181 | 201 exactly when both fields are supplied, the store is up and the name is new, and then exactly that name is added with the next id and the password's hash, all other entries are kept and the next id advances by one; every other outcome leaves the table unchanged: 400 "Username and password are required." for a missing field, 400 "Username already exists." for a taken name, 500 "Internal server error." when the store fails |
| `Auth.Login` | api/index.js:183-224 | 200 exactly when both fields are supplied, the store is up, the user exists and `compare` accepts the password against the stored hash; then the cookie carries that user's id; a missing field gives 400 "Username and password are required.", 500 "Internal server error." comes exactly when both fields are supplied and the store fails, and no failure sets a cookie |
| `Auth.Logout` | api/index.js:226-233 | 200 and the token cookie cleared |
| `Auth.Session` | api/index.js:213-231 | a response that sets the token gives a session for its user id, one that clears it gives none, and any other response leaves the session as it was |
| `Auth.SignUpKeepsValid` | api/index.js:170-174 | sign-up keeps the generated ids unique and below the next id |
| `Auth.NoDoubleSignUp` | api/index.js:157-176 | after a 201, a second sign-up with the same name never gets 201, whatever it sends; with the store up and a password supplied it gets 400 "Username already exists." |
| `Auth.SignUpTwiceFreshName` | api/index.js:157-176 | two sign-ups of a new name in a row give one 201, then one 400, and the second leaves the table unchanged |
| `Auth.LoginFailuresIdentical` | api/index.js:198-205 | an unknown user and a wrong password both get the same reply: (400, "Invalid credentials."), with no cookie |
| `Auth.SignUpThenLogin` | api/index.js:167-219 | a user who has just signed up can log in with the same password and gets a token for the id the store generated, provided `compare` accepts a password against its own hash |
| `Auth.SignUpKeepsOtherLogins` | api/index.js:170-174 | a sign-up does not change the outcome of any other user's login |
| `Auth.TokenIdentifiesUser` | api/index.js:198-210 | in a table whose generated ids are unique, two successful logins that set the same token were for the same username |
| `Auth.LoginThenLogoutSession` | api/index.js:207-232 | after a successful login the session is that user's id; after a following logout there is no session |
| `Auth.UserStore.FindUser` | api/index.js:158-161 | the lookup succeeds exactly when the store is up, and it returns a row exactly when the name is in the table, namely that user's row |
| `Auth.UserStore.Insert` | api/index.js:171-174 | the insert adds the name with the next id and the hash, and advances the id; if the store is down, nothing changes; generated ids stay unique and below the next id |
| `Auth.SignUpHandler` | api/index.js:147-181 | the handler's reply and the new table are exactly those of `SignUp`, and the table's id invariant is kept |
| `Auth.LoginHandler` | api/index.js:183-224 | the handler's reply is exactly that of `Login`, and it changes nothing |

## Left out

- Express setup, body parsing, CORS, cookie parsing and `app.listen`
  (api/index.js:1-32, 235-237) are framework plumbing.
- The `authenticate` middleware (`./middleware/auth`) is not modelled.
  Neither is checking a token's signature or its one-hour expiry. A session is modelled only as the user id the cookie
  carries (`Auth.Session`).
- JWT signing, `JWT_SECRET` and the cookie attributes (`httpOnly`, `secure`,
  `path`) are left out. A set cookie is `SetToken(id)`.
- Real SQL execution is left out. The store is a parameter, so the model does
  not say which analytics rows a statement selects. It only states what text
  and parameters are sent and how the answer is shaped.
- bcrypt is two function parameters. Salting, the cost factor 10 and the fact
  that hashing is randomised are not modelled. `Auth.SignUpThenLogin` assumes
  `compare(p, hash(p))` for the one password involved.
- Store failures are modelled as a whole-store failure
  (`UserStore.online == false`), or as a `DbError` result for the chart
  endpoints. A store whose lookup succeeds and whose insert then fails is not
  modelled, and neither are errors thrown by bcrypt or `jwt.sign`.
- `Auth.UserStore.Insert` requires the name to be absent, because the only
  caller has just checked that it is. The table's schema is not part of this
  model, so inserting a duplicate name (a unique-constraint violation, or a
  second row) is not modelled. The concurrent check-then-insert race in sign-up
  is concurrency and out of scope.
- Request fields are strings or absent. Query-string arrays and non-string JSON
  bodies are not modelled.
- `Casing.LowerString` and `Casing.Capitalize` map ASCII letters only.
  JavaScript's full Unicode case mapping is not modelled.
- Each per-day total is assumed to be numeric text, and `parseInt(_, 10)` is
  a function parameter from text to integer. A NULL total is not modelled: in
  JavaScript it becomes `NaN`, which is sent as `null`.
- Logging (`console.error`) is left out.
