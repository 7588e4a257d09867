# Fiscal-mind ledger core in Dafny

Fiscal-mind is a personal finance ledger. An Express server keeps a `users`
table and a `transactions` table in PostgreSQL. Every transaction route sits
behind a bearer-token check. A browser client caches the signed-in user's
records and derives its views from that cache: budget cards, a history tab,
a doughnut chart and a rule-based "AI" insight.

This project models both halves as pure functions over immutable values:

- **Client** (`frontend/script.js`). `Budget` covers the limit defaulting,
  the save-limit check, spend per bucket, the clamped percentage, the colour
  band and the over-limit flag. `History` covers the month/year filter and
  its expense total. `Insight` covers the chart's savings slice and the
  four-outcome classifier. `Cache` covers the cache updates after add and
  delete.
- **Server** (`server/server.js`). `Auth` covers token extraction from the
  `Authorization` header and the 401/403 split. `Store` holds both tables and
  the register, login, list, add and delete routes. `Server` dispatches
  requests and runs sequences of them. The isolation invariant is proved
  there: a request that does not authenticate as user A never changes A's
  rows or A's listing, and every listing holds only the caller's rows.
- `Coherence` links the two halves. The client's cache updates keep the cache
  a correct listing when the request authenticates as the cache's owner and,
  for an add, when the new row's date sorts first; a delete that fails
  authentication breaks it. Every dashboard figure is the same for any order the
  database gives to rows with equal dates.
- `Seqs` and `Records` are shared helpers: `Array.prototype.filter` as
  `Filter`, the transaction record, and sums with their permutation lemmas.

bcrypt and JWT are abstract. They are the four function fields of a `Crypto`
value: `hash`, `matches`, `sign` and `verify`. The ghost predicate
`Auth.Sound` states the laws the proofs assume: a password matches its own
hash, `verify(sign(c)) == Some(c)`, and a token is a non-empty word with no
spaces. The clock is a parameter of the add route: the `date` and
`created_at` column defaults are passed in.

Behaviours of the code that the model keeps as they are:

- The add route checks neither `amount` nor `type` (server.js:94-99), so
  `type` is a free string here.
- The insight box has exactly four outcomes: Awaiting Data, Critical Alert,
  Deficit and Healthy (script.js:329-332).
- Login answers "User not found" and "Invalid password" with the same
  status, 400, but with different messages. The messages tell the two cases
  apart.
- Tokens carry no expiry.
- A stored limit is read with `Number(x) || default`. A negative stored
  value is used as it is. Only the save dialog rejects limits that are not
  positive. `Budget.LimitsPositive` is the invariant under which every limit
  is positive.

Behaviours of the client and the server that the model makes visible:

- The delete handler filters the cache whatever the server answered.
  `Coherence.DeleteKeepsCacheCoherent` shows this is harmless when the
  delete authenticated as the cache's owner: a 404 then means the cache held
  no such row. After a 401 or 403 it is not harmless: the server keeps the
  row and the cache drops it (`Coherence.RejectedDeleteDropsRow`). The same
  happens after a 500, which is not modelled.
- `logout()` removes the token and reloads the page, and without a token the
  dashboard never loads. A dashboard still open after its token was removed
  elsewhere (a logout in another tab, say) sends `Bearer null`. That is a
  token, so the server answers 403, not 401
  (`Auth.LoggedOutClientIsForbidden`).
- A refused registration still spends an id: the insert draws the next
  value of the `users` id sequence before the unique constraint fails, and
  PostgreSQL does not give it back. `Store.Register` advances `nextUserId`
  on both branches, so ids can have gaps.

## Model

| member | source | states |
|---|---|---|
| `Records.TotalPermutation` | frontend/script.js:268-271 | the sum of amounts is the same for every ordering of the records |
| `Records.TotalConcat` | frontend/script.js:271 | the sum of a concatenation is the sum of the parts |
| `Records.TotalNonNegative` | frontend/script.js:271 | records with non-negative amounts have a non-negative sum |
| `Budget.EffectiveLimit` | frontend/script.js:252-265 | a missing key, NaN or 0 falls back to the bucket default; any other stored number is used; the result is never 0 |
| `Budget.SpentIgnores` | frontend/script.js:268-271 | appending or prepending income, another category or a record with no category leaves a bucket's spend unchanged |
| `Budget.SpentCounts` | frontend/script.js:268-271 | appending or prepending an expense with exactly the bucket's category adds exactly its amount |
| `Budget.SpentPermutation` | frontend/script.js:268-271 | a bucket's spend does not depend on the order of the records |
| `Budget.SpentNonNegative` | frontend/script.js:268-271 | with non-negative amounts the spend is non-negative |
| `Budget.Pct` | frontend/script.js:280 | never above 100; for a positive limit it is 100 iff spend reaches the limit, otherwise spend/limit scaled to 100, and not negative when spend is not; for a negative limit it is 100 iff spend is at or below the limit, otherwise spend/limit scaled to 100 |
| `Budget.PctInRange` | frontend/script.js:280 | non-negative amounts and a positive limit give a percentage in 0..100 |
| `Budget.BandOf` | frontend/script.js:286 | green iff below 50, yellow iff in [50, 90), red iff at least 90: total and exclusive |
| `Budget.Spent` | frontend/script.js:268-271 | the two chained filters equal one filter for expenses of exactly that category, and the spend is that filter's sum |
| `Budget.Status` | frontend/script.js:267-292 | a card carries the effective limit, the spend, the bar width `Pct(spent, limit)` and its band; the flag is set iff spend strictly exceeds the limit; with a positive limit the flag implies a full red bar |
| `Budget.UpdateBudgets` | frontend/script.js:251-293 | one card per bucket (food, transport, fun), in that order |
| `Budget.ExactlyAtLimit` | frontend/script.js:280-291 | spend equal to a positive limit gives 100%, red, and no over-limit flag |
| `Budget.FoodOverDefault` | frontend/script.js:252-291 | food spend 6000 with no stored limit gives limit 5000, 100%, red, over limit |
| `Budget.SaveLimit` | frontend/script.js:227-242 | stores the input iff it is non-empty, numeric and above 0, under that category's key only; otherwise storage is unchanged |
| `Budget.SavedLimitIsUsed` | frontend/script.js:230-265 | after an accepted save, the bucket's limit is the saved number |
| `Budget.SaveLimitLeavesOthers` | frontend/script.js:232 | saving one category's limit leaves every other bucket's limit unchanged |
| `Budget.SaveLimitKeepsLimitsPositive` | frontend/script.js:230-232 | saving keeps every stored budget limit positive |
| `Budget.PositiveLimitsGiveConsistentCards` | frontend/script.js:252-291 | under positive stored limits every card's limit is positive and the over-limit flag implies red |
| `History.FilterPeriod` | frontend/script.js:185-188 | the loop computes exactly the records whose year matches and whose month matches unless "all" is chosen, in cache order |
| `History.SumExpenses` | frontend/script.js:196-198 | the loop's total is the sum of the expense amounts |
| `History.RenderHistory` | frontend/script.js:178-207 | no records iff no record is in the period; otherwise exactly the period's records and the expense total of those records only |
| `History.ListedRowsArePeriodRows` | frontend/script.js:185-188 | a record is listed iff it is cached and in the period; the list keeps cache order |
| `History.PeriodTotalConcat` | frontend/script.js:196-198 | a period's total adds over a split of the records |
| `History.YearIsSumOfMonths` | frontend/script.js:185-198 | with month indices in 0..11, the "all" total of a year is the sum of the twelve monthly totals |
| `History.MonthWithinYear` | frontend/script.js:187 | every record of a month of a year is also listed under "all" for that year |
| `Insight.Classify` | frontend/script.js:326-332 | first match wins: awaiting data iff both totals are 0; critical iff income is 0 and expense is not; deficit iff income is not 0 and expense exceeds it, reporting exp - inc > 0; healthy otherwise |
| `Insight.SavingsSlice` | frontend/script.js:318 | never negative, at least inc - exp, and either 0 or inc - exp |
| `Insight.Chart` | frontend/script.js:313-318 | the first slice is the expense total and the second the savings slice of the two totals; the savings slice is non-negative, and the slices add up to the larger of income and expense |
| `Insight.GenerateAI` | frontend/script.js:323-332 | no records means awaiting data; each outcome holds iff its rule matches the income and expense totals; a deficit reports expense minus income |
| `Insight.TextIdentifiesOutcome` | frontend/script.js:329-332 | `Title` and `Message` each give the four outcomes four different texts, and the same text for the same outcome |
| `Insight.ChartAgreesWithInsight` | frontend/script.js:313-332 | deficit and critical alert show no savings slice; healthy shows exactly the balance; awaiting data shows an empty chart |
| `Insight.InsightMeaning` | frontend/script.js:324-332 | with non-negative amounts: critical iff no income and some spending; healthy iff income is positive and covers the spending |
| `Insight.DashboardPermutation` | frontend/script.js:313-325 | insight and chart depend only on the multiset of records |
| `Insight.Scenarios` | frontend/script.js:329-332 | 0/0 awaits data; 10000 income with 12000 spent is a deficit of 2000; 10000 with 1000 is healthy |
| `Cache.AfterAdd` | frontend/script.js:138 | the saved record goes in front; the rest of the cache is unchanged |
| `Cache.AfterDelete` | frontend/script.js:150 | every record with the id goes; each other record keeps its count and its relative order |
| `Cache.DeleteIdempotent` | frontend/script.js:150 | deleting the same id twice is deleting it once |
| `Cache.DeleteUndoesAdd` | frontend/script.js:138-150 | deleting a just-added record with a fresh id restores the cache |
| `Cache.DeletesCommute` | frontend/script.js:150 | two deletes give the same cache in either order |
| `Auth.Split` | server/server.js:26 | every piece of `split(' ')` is space-free and there is at least one |
| `Auth.JoinSplit` | server/server.js:26 | joining the pieces with spaces gives back the header |
| `Auth.SplitJoin` | server/server.js:26 | splitting a join of space-free pieces gives back the pieces |
| `Auth.BearerToken` | server/server.js:25-28 | a token is extracted iff the header has a non-empty second space-separated piece, whatever the first word, and it is that piece; no header gives none |
| `Auth.AuthHeader` | frontend/script.js:108 | the header's space-separated pieces are "Bearer" followed by the token's own pieces |
| `Auth.Authenticate` | server/server.js:24-35 | 401 iff no token is extracted; 403 iff a token is extracted that does not verify; otherwise the verified claims |
| `Auth.BearerTokenOfAuthHeader` | server/server.js:26 | the server extracts exactly the token the client put after "Bearer " |
| `Auth.SignedTokenAuthenticates` | server/server.js:28-33 | a header carrying a signed token authenticates as the signed claims |
| `Auth.LoggedOutClientIsForbidden` | server/server.js:28-31 | the header "Bearer null" gets 403, not 401, when "null" does not verify |
| `Auth.MissingTokenScenarios` | server/server.js:25-28 | no header, an empty header, "Bearer" alone and "Bearer" with two spaces all get 401 |
| `Store.FindUser` | server/server.js:62-63 | the found user is in the table with that email; none is found iff no user has that email |
| `Store.Register` | server/server.js:40-55 | a taken email gives 400 "Email already exists" and no new row; otherwise exactly one user row is added and the reply is only the new id and email; either way the id sequence advances by one |
| `Store.Login` | server/server.js:58-76 | success iff the email is found and the password matches that row's hash; unknown email iff 400 "User not found"; known email with a non-matching password iff 400 "Invalid password"; on success a token signed over a matching user's id and email |
| `Store.InsertByDate` | server/server.js:82 | inserting into a date-sorted list keeps it sorted and adds exactly that row |
| `Store.SortByDate` | server/server.js:82 | the result is sorted by date descending, NULL dates first, and is a permutation of the input |
| `Store.List` | server/server.js:79-85 | exactly the rows whose owner is the caller, as a multiset, sorted by date descending |
| `Store.Add` | server/server.js:92-100 | appends one row owned by the caller, whatever the body's user_id, with the next id, the body's fields unchecked, and the `date` and `created_at` column defaults given; earlier rows and the users table are unchanged; the reply is the stored row |
| `Store.Delete` | server/server.js:108-113 | removes exactly the rows with that id owned by the caller; 404 "Not found or not authorized" with no change iff no such row exists |
| `Store.SameIdSameRow` | server/server.js:96-97 | under unique ids a row is determined by its id |
| `Server.Route` | server/server.js:79-113 | list, add and delete are served by `List`, `Add` and `Delete` as the caller; a protected route never touches the users table; listing changes nothing and answers a correct listing of the caller's rows; every row added or removed belongs to the caller |
| `Server.SignedRequestIsServed` | server/server.js:24-35 | a request carrying a token the server signed is served by its route as exactly the signed identity |
| `Server.Step` | server/server.js:24-113 | a verified token hands the request to its route as the verified claims; the open requests are served by register and login; a failed token check answers 401 or 403 and changes nothing; the open routes never touch transactions; a request with no verified identity never changes transactions |
| `Server.Run` | server/server.js:79-113 | one reply per request; with `Server.RunSnoc`, each request is served by `Step` in order against the state the earlier requests left |
| `Server.RunSnoc` | server/server.js:24-113 | a run with one more request is the earlier run followed by one `Step` on the state it left, with that step's reply appended |
| `Server.StepKeepsValid` | server/server.js:40-113 | every route keeps emails unique, user ids unique, and transaction ids unique and below the next id |
| `Server.RunKeepsValid` | server/server.js:40-113 | the table constraints hold after any sequence of requests |
| `Server.StepIsolation` | server/server.js:79-113 | a request not authenticated as A leaves A's rows exactly as they were |
| `Server.RunIsolation` | server/server.js:79-113 | over any run with no request authenticated as A, A's rows and A's listing are unchanged |
| `Server.RunListingsAreScoped` | server/server.js:79-85 | every listing in a run holds only rows owned by the identity its request authenticated as |
| `Server.CannotDeleteOthersRow` | server/server.js:108-113 | deleting another user's row gives the 404 of a missing id and changes nothing |
| `Server.RegisterThenLogin` | server/server.js:40-71 | a fresh registration can log in with its password, and the token authenticates as exactly the new id and email |
| `Server.LoginIdentifiesUser` | server/server.js:40-71 | with unique emails, login succeeds iff the password matches that user's hash, the token is over that user, and registering the email again is refused |
| `Coherence.FilterKeepsSorted` | server/server.js:82 | a filter of a date-sorted listing is date-sorted |
| `Coherence.DeleteKeepsCacheCoherent` | frontend/script.js:144-151 | after the delete route and the client's filter, the cache is still a correct listing of the caller's rows, whatever the route answered |
| `Coherence.RejectedDeleteDropsRow` | frontend/script.js:144-151 | a delete that fails authentication gets 401 or 403 and leaves the table as it was, yet the client's filtered cache no longer lists the caller's rows |
| `Coherence.AddKeepsCacheCoherent` | frontend/script.js:130-138 | after the add route and the client's prepend, the cache is still a correct listing, provided the new row's date sorts first |
| `Coherence.ListingFiguresAgree` | server/server.js:82 | two correct listings give the same budget cards, insight, chart and history totals |

## Left out

- DOM work, Chart.js drawing, jsPDF export, tab and modal toggling, alerts and the HTML templates: these are presentation only.
- `fetch`, async plumbing, the `pg` pool, Express routing and `app.listen`. The database is an immutable `Db` value and local storage is a map.
- The 500 paths of every route. A non-numeric `:id`, a missing password at registration, a missing password at login for an email that is found, and store failures all reach `catch`. A missing email or password is not representable in the model, whose fields are always strings. At login a missing email is sent as NULL, matches no row and gets 400 "User not found", and an unknown email gets that 400 before the password is compared. At registration, what a missing email does depends on the `users` schema, which server.js does not show: a NOT NULL constraint sends it to `catch`, and without one the row is stored with a NULL email and the route answers 200. The client puts any JSON the add route returns at the front of its cache, including the 500 error body; only the success reply is modelled.
- bcrypt salting and cost, JWT encoding, the `iat` claim and the hard-coded signing key. The primitives are abstract `Crypto` fields with the `Sound` laws.
- `Store.Login`: when several users share an email, the row the database returns first is unspecified. The model takes the first in table order; under `Valid` only one row can match.
- `Store.List`: `ORDER BY date DESC` leaves rows with equal dates in an unspecified order. The contract is the relation `IsListing` (the same multiset, sorted), and `SortByDate` is one order satisfying it. `Coherence.ListingFiguresAgree` shows the choice does not matter to the client.
- `Coherence.AddKeepsCacheCoherent` is stated only for a new row whose date sorts first. A back-dated row would be listed later by the server but is still prepended by the client.
- JavaScript `Date` parsing and time zones. A timestamp is given as its year, its 0-based month and an ordering instant, and nothing links the three.
- `Insight.Title`: the emoji-like prefix of each title is left out (the source file stores mis-encoded characters there); the titles are the words only.
- Text-to-number conversion. A typed or stored string travels with the number `Number()` reads from it. Currency formatting is left out too: `toLocaleString` and the deficit message's amount text.
- IEEE floating point. Amounts are exact reals, so Infinity and NaN amounts do not arise, and the 50/90/100 thresholds are exact.
- Concurrency between requests. A run serves requests one at a time.
