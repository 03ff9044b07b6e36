# Ai-Trading-Assistant: a verified model of the session boundary, the per-user collections and the small utilities

This project models, in Dafny, the deterministic logic of the Ai-Trading-Assistant
backend (FastAPI) and frontend (Next.js), and proves properties of that model.

**Session boundary.**
- Token selection: a `Bearer` header or the session cookie.
- How each decode outcome becomes its 401 message.
- User lookup.
- The `/auth/me` copy of all three, and the points where it differs from the shared dependency:
  - the scheme is matched case-insensitively there;
  - the token is split differently;
  - the cookie fallback is different;
  - the cookie name is fixed.
- Token minting: the input claims plus `exp`.
- Registration, login with its environment-dependent cookie attributes, and logout.

JWT and bcrypt are values holding functions. A ghost `Sound()` predicate states the one law each is relied on for. The settings, the clock and `EmailStr` are parameters. `EmailStr` is a function that refuses a string or returns its normalised address, and the backend stores and compares that address.

**Per-user collections.**
- Each table is a class with a `seq` of rows and the next autoincrement id. Rows are kept in insertion order, which stands for `created_at` order.
- Each route is a method proved equal to a specification function of the old rows. The properties are lemmas about those functions:
  - normalisation;
  - duplicate and not-found errors;
  - get-or-create idempotence;
  - frame conditions on other users' rows;
  - the table invariants.
- The tables covered are:
  - the watchlist and the pattern-trends list, which share one symbol table;
  - the portfolio items;
  - the risk settings;
  - the theme preference;
  - the chat log.
- The chat log is kept by a session class with committed rows, flushed but uncommitted rows, and the id sequence. Its add, commit and rollback decide what persists on each of the five ways through `chat_message`.
- As written, an exception from the model rolls back the flushed question and commits only the apology. The model keeps this (`ChatRouter.ChatStoresApology`).
- The `RegisterForm` sends a username-only body to a backend schema that requires `email`. `RegisterForm.UsernameBodyRefused` states that such a body is always refused.

**Utilities.**
- Name capitalisation, in both its Python and TypeScript twins. They are proved to agree wherever Python and JavaScript class the same characters as whitespace, and shown to differ on U+001C.
- The market-hours predicate, with day, hour and minute as parameters.
- Backend-URL precedence.
- The navigation bar's active-link test.
- Stock search and ticker resolution, with both HTTP replies as parameters.
- The register and login form schemas and their request bodies.
- The trades greeting.
- The `UserCreate` and `UserPublic` schemas.
- The autocomplete box's state machine.

Shared string primitives live in `Text`:
- Python's and JavaScript's whitespace classes;
- ASCII case mapping;
- strip and trim;
- `split()`, `split(" ")` and `split(/\s+/)`;
- `join`;
- `int(str)` and `str(int)`.

## Model

| member | source | states |
|---|---|---|
| AuthRouter.ParseRegister | backend/app/api/auth_router.py:21-23 | a register body is accepted exactly when `email` is present and `EmailStr` accepts it and `password` has at least six characters; the request then carries the normalised address and the password, and a refusal names exactly the failing fields |
| AuthRouter.ParseLogin | backend/app/api/auth_router.py:26-35 | a login body is accepted exactly when the field checks pass and the normalised `email` or the `username` is truthy; the accepted request carries the normalised address, the username and the password; the field errors come first, and the validator's `body` error appears only when both fields are well formed |
| AuthRouter.Register | backend/app/api/auth_router.py:42-56 | a taken address gives 400 "Email already registered" and leaves the table as it was; otherwise one local user with the request's normalised address and the bcrypt hash is appended under the next id; the table keeps unique ids, emails and usernames |
| AuthRouter.SpellingsAreOneAccount | backend/app/api/auth_router.py:21-68 | two bodies whose emails `EmailStr` normalises to the same address are one account: once the first has registered, the second's duplicate lookup finds the new row, and a login under the second spelling looks that row up |
| AuthRouter.Authenticate | backend/app/api/auth_router.py:62-71 | a successful login returns a row of the table that matches the email (or, without one, the username) and whose hash verifies the password; every failure is 400 "Invalid email/username or password" |
| AuthRouter.AuthenticateIff | backend/app/api/auth_router.py:62-71 | with unique keys, login succeeds if and only if some row matches the requested email or username and its hash verifies the password |
| AuthRouter.LoginCookie | backend/app/api/auth_router.py:79-94 | the session cookie is HttpOnly, lives one day on path `/`, is Secure and SameSite=None exactly in production (Lax otherwise), and carries a Domain exactly in production with a non-empty `COOKIE_DOMAIN` |
| AuthRouter.Login | backend/app/api/auth_router.py:59-100 | a failed authentication answers 400 and sets no cookie; a success mints a token for `str(user.id)`, sets it as the session cookie and returns it with type `bearer` |
| AuthRouter.LogoutDomain | backend/app/api/auth_router.py:109 | logout names a domain exactly when `COOKIE_DOMAIN` is non-empty, and then that domain |
| AuthRouter.Logout | backend/app/api/auth_router.py:103-111 | logout asks the browser to delete the cookie named `COOKIE_NAME` on path `/` with that domain, and answers "Logged out" |
| AuthRouter.LogoutTargetsLoginCookie | backend/app/api/auth_router.py:79-110 | logout names the cookie login set (same name and path), and the same domain exactly in production or when no `COOKIE_DOMAIN` is set |
| AuthRouter.MeHeaderToken | backend/app/api/auth_router.py:123-124 | `/me` takes a header token exactly when the lower-cased header starts with `bearer `, and the token is everything after those seven characters |
| AuthRouter.MeToken | backend/app/api/auth_router.py:121-126 | a token is never empty; it is the header's when the header starts with "bearer " in any case, otherwise the `access_token` cookie's; a "bearer" header with an empty token shuts the cookie out and yields no token |
| AuthRouter.ReadMe | backend/app/api/auth_router.py:114-147 | every failure of `/me` is a 401; "Authentication required" exactly when no token was found; "Token expired" exactly when the decoder reports expiry; "Invalid token" exactly for an undecodable token or a non-integer subject; for a valid token with an integer subject, the stored row with that id gives exactly its id and email, and "User not found" comes exactly when no row has that id |
| AuthRouter.ReadMeAgreesWithDependency | backend/app/api/auth_router.py:121-147 | with no header or a well-formed `Bearer <token>`, and the cookie named `access_token`, `/me` answers as the shared dependency does, up to the wording of the invalid-token error |
| AuthRouter.LowercaseBearerOnlyForMe | backend/app/api/auth_router.py:123-124 | a header `bearer x` gives `/me` the token `x` but gives the dependency no header token |
| AuthRouter.EmptyBearerFallsBackOnlyInDependency | backend/app/api/auth_router.py:123-129 | with header `Bearer ` and a cookie, the dependency uses the cookie while `/me` answers "Authentication required" |
| AuthRouter.TokenWithSpaceSplitsDifferently | backend/app/api/auth_router.py:124 | for `Bearer a b`, `/me` reads the token `a b` and the dependency reads `a` |
| AuthRouter.RenamedCookieOnlyForDependency | backend/app/api/auth_router.py:117 | when `COOKIE_NAME` is not `access_token`, `/me` ignores the session cookie that the dependency reads |
| AuthRouter.RegisterLoginMe | backend/app/api/auth_router.py:42-147 | after a successful registration, login with the same email and password returns the new user, and `/me` with the cookie login set answers that user's id and email until the token expires |
| Deps.HeaderToken | backend/app/api/deps.py:31-33 | the header yields a token exactly when it starts with `Bearer ` (case-sensitively), and the token is the text after the prefix up to the next space |
| Deps.SelectToken | backend/app/api/deps.py:31-37 | a selected token is never empty and is the header's token or the cookie's value |
| Deps.SubjectId | backend/app/api/deps.py:53-56 | an id comes only from a present `sub`; an integer subject is that integer, and a string subject is what `int()` makes of it |
| Deps.GetCurrentUserFromCookie | backend/app/api/deps.py:19-76 | every failure is a 401; "Authentication required" exactly when neither source gives a token; "Token expired" exactly when the decoder reports expiry; "Invalid or expired token" exactly for an undecodable token or a missing or non-integer subject; for a valid token with an integer subject, the stored row with that id is returned, and "User not found" comes exactly when no row has that id |
| Deps.BearerHeaderWins | backend/app/api/deps.py:31-37 | with a usable `Bearer` header the outcome does not depend on the cookies |
| Deps.HeaderTokenExamples | backend/app/api/deps.py:33 | `Bearer a b` yields the token `a` |
| Deps.HeaderTokenEmpty | backend/app/api/deps.py:32-33 | a bare `Bearer ` yields the empty token, which the fallback then ignores |
| Deps.HeaderTokenCaseSensitive | backend/app/api/deps.py:32 | `bearer a` yields no header token |
| Deps.CookieFallback | backend/app/api/deps.py:36-37 | without a usable header token the token is the `COOKIE_NAME` cookie's value when it is non-empty, and none otherwise |
| Deps.NoTokenNoDecode | backend/app/api/deps.py:39-44 | with no token from either source the answer is "Authentication required", whatever the decoder, the clock and the table |
| Deps.MintedTokenResolves | backend/app/api/deps.py:47-76 | a token minted for a stored user and sent as `Bearer <token>` resolves to that user until it expires and to "Token expired" after |
| Security.HashPassword | backend/app/core/security.py:12-19 | a password verifies against its own bcrypt hash |
| Security.VerifyPassword | backend/app/core/security.py:17-19 | under the bcrypt law, a password verifies against its own hash |
| Security.WithExpiry | backend/app/core/security.py:24-26 | the claims copy keeps every input claim except `exp`, adds `exp`, and sets it to the computed expiry |
| Security.CreateAccessToken | backend/app/core/security.py:22-31 | under the JWT law, the token decodes at issue time, with the configured key and algorithm, to the verdict on the input claims with `exp` set to now plus `JWT_EXPIRE_MINUTES` |
| Security.DecodeVerdict | backend/app/api/deps.py:47-66 | python-jose's verdict on the claims of a token it made: valid exactly when an `exp`, if any, is an integer not yet passed and a `sub`, if any, is a string, and then the claims come back unchanged; expired only for an integer `exp` that has passed |
| Security.AccessTokenDecodes | backend/app/core/security.py:22-31 | a minted token decodes under the configured key and algorithm to the input claims plus `exp` up to `JWT_EXPIRE_MINUTES` minutes after minting, and is reported expired after that |
| Security.ExpiryOverridesInput | backend/app/core/security.py:24-26 | an `exp` already in the input claims is replaced by the computed expiry |
| Models.NewLocalUser | backend/app/db/models.py:11-22 | a new row has the given id, email and hash, provider `local`, theme `light`, and no name, username or provider id |
| Models.FindById | backend/app/db/models.py:11 | a found row is in the table with that id; not found means no row has it |
| Models.FindByEmail | backend/app/db/models.py:13 | a found row is in the table with that email; not found means no row has it |
| Models.FindByUsername | backend/app/db/models.py:14 | a found row is in the table with that username; not found means no row has it |
| Models.UniqueKeysReplace | backend/app/db/models.py:11-14 | replacing a row by one with the same id, email and username keeps the keys unique |
| Models.FindByIdUnique | backend/app/db/models.py:11 | with unique ids, looking up a row's id finds that row |
| Models.FindByEmailUnique | backend/app/db/models.py:13 | with unique emails, looking up a row's email finds that row |
| Models.FindByUsernameUnique | backend/app/db/models.py:14 | with unique usernames, looking up a row's username finds that row |
| UserSchemas.AcceptedIff | backend/app/schemas/user.py:8-19 | a `UserCreate` body is accepted if and only if an email (when given) passes `EmailStr`, a username (when given) has at least three characters, the password has 6 to 72 characters, and the normalised email or the username is truthy; the accepted value carries the name, the normalised address, the username and the password |
| UserSchemas.ParseUserCreate | backend/app/schemas/user.py:8-19 | an accepted user passed every field check and has a truthy email or username, a password of 6 to 72 characters and, if any, a username of three or more; a refusal lists the failing fields, or is the validator's `body` error when no field fails |
| UserSchemas.ToPublic | backend/app/schemas/user.py:24-31 | the public view has the row's id and always an email |
| UserSchemas.FieldErrorsExact | backend/app/schemas/user.py:10-12 | each of `email`, `username` and `password` is reported exactly when its own constraint fails |
| UserSchemas.IdentifierRequired | backend/app/schemas/user.py:15-18 | the validator's error is raised exactly when every field is valid and neither an email nor a username is given |
| UserSchemas.AcceptedHasIdentifier | backend/app/schemas/user.py:10-18 | an accepted user has a truthy email or a username of at least three characters, an email only as `EmailStr` normalised the body's, and a password of 6 to 72 characters |
| UserSchemas.PublicHidesCredentials | backend/app/schemas/user.py:24-28 | the public view is the row's id, name, email and username, and rows differing only in hash, provider, provider id or theme look the same |
| Users.SetTheme | backend/app/api/users.py:21 | the write changes the theme of the rows with that id and leaves every other row as it was |
| Users.UpdateOutcome | backend/app/api/users.py:13-24 | the update succeeds if and only if the theme is `light` or `dark`; a refusal is 400 "Invalid theme value" with the table unchanged; a success echoes the theme, stores it on the caller's row, and changes no other row |
| Users.UpdateSpec | backend/app/api/users.py:13-24 | success exactly for `light` or `dark`, answering that theme; a refusal is 400 "Invalid theme value" with the table unchanged; the row count and every id, email and username are kept, and valid themes stay valid |
| Users.GetUserTheme | backend/app/api/users.py:9-11 | the answer is the current row's theme, so light or dark whenever the row's is |
| Users.FindByIdSetTheme | backend/app/api/users.py:21-23 | after the write, looking up the caller finds the caller's row with the new theme |
| Users.UpdateThenGet | backend/app/api/users.py:9-24 | after a successful update, `get_user_theme` returns what the update returned |
| Users.UpdateIdempotent | backend/app/api/users.py:13-24 | repeating an update gives the same answer and the same table |
| Users.UpdateKeepsInvariants | backend/app/api/users.py:19-22 | an update keeps every row's id, keeps the keys unique, and keeps every stored theme `light` or `dark` |
| Users.NewUserThemeValid | backend/app/db/models.py:22 | a newly registered user starts on theme `light`, so stored themes stay valid |
| Users.UpdateUserTheme | backend/app/api/users.py:13-24 | the route's answer and the table it leaves are those of the update specification, and the table stays valid |
| CoreUtils.CapitalizeName | backend/app/core/utils.py:3-26 | the loop over the words of the stripped name returns the specification's result: the name as given when it is missing or blank, otherwise the capitalised words joined with single spaces |
| CoreUtils.CapitalizeNameSpec | backend/app/core/utils.py:3-26 | the result is `None` exactly when the name is |
| CoreUtils.CapitalizedNameShape | backend/app/core/utils.py:14-26 | a name with something in it comes back non-empty, with no whitespace at either end, and with single spaces as its only whitespace |
| CoreUtils.CapitalizedNameWords | backend/app/core/utils.py:18-26 | the result's words are the input's words, each capitalised, and there are as many of them |
| CoreUtils.CapitalizeNameIdempotent | backend/app/core/utils.py:3-26 | capitalising an already capitalised name changes nothing |
| CoreUtils.CapitalizeNameJohnDoe | backend/app/core/utils.py:5 | `john doe` becomes `John Doe` |
| CoreUtils.CapitalizeNameMaryJane | backend/app/core/utils.py:5 | `MARY JANE` becomes `Mary Jane` |
| CoreUtils.TwoWordName | backend/app/core/utils.py:18-26 | two whitespace-free words separated by one space are capitalised word by word |
| CoreUtils.TitleWordsClean | backend/app/core/utils.py:21-24 | capitalising non-empty whitespace-free words keeps them non-empty and whitespace-free |
| CrudPortfolio.ItemsOf | backend/app/crud.py:5-6 | the listing holds exactly the rows owned by the user |
| CrudPortfolio.FindOwned | backend/app/crud.py:16 | a found row has that id and is the caller's; none is found exactly when no row has both |
| CrudPortfolio.DeleteResponse | backend/app/api/portfolio_router.py:25-28 | the router answers the deleted row, or 404 "Item not found" exactly when nothing was deleted |
| CrudPortfolio.CreateScoped | backend/app/crud.py:8-13 | a created row is the only one its owner gains, at the end, and nobody else's listing changes |
| CrudPortfolio.CreateKeepsInvariant | backend/app/crud.py:8-13 | storing a row under the next id keeps ids distinct and below the next id |
| CrudPortfolio.DeleteSpecOutcome | backend/app/crud.py:15-20 | a delete removes a row exactly when the caller owns a row with that id, returns that row, removes it and only it, and keeps the ids distinct |
| CrudPortfolio.DeleteOthersRefused | backend/app/crud.py:15-20 | deleting another user's row or a missing id changes nothing and answers 404 |
| CrudPortfolio.DeleteKeepsOthers | backend/app/crud.py:15-20 | a delete leaves every other owner's listing as it was |
| CrudPortfolio.IdsUnique | backend/app/crud.py:15-20 | with distinct ids, a row is the only one with its id |
| CrudPortfolio.CreateThenDelete | backend/app/crud.py:8-20 | creating a row and deleting it by its new id returns that row and restores the table |
| CrudPortfolio.PortfolioTable.GetPortfolioItems | backend/app/crud.py:5-6 | the listing holds exactly the table's rows owned by the user |
| CrudPortfolio.PortfolioTable.CreatePortfolioItem | backend/app/crud.py:8-13 | the new row has the next id, the caller as owner and the body's fields; it is appended, and the table stays valid |
| CrudPortfolio.PortfolioTable.DeletePortfolioItem | backend/app/api/portfolio_router.py:23-28 | the answer and the rows left are those of the delete specification with the router's 404, and the table stays valid |
| RiskManagement.IndexOfUser | backend/app/api/risk_management_router.py:19-21 | the index found holds the user's row and no earlier row is the user's, or no row is the user's |
| RiskManagement.SettingsOf | backend/app/api/risk_management_router.py:19-21 | a row is found exactly when some row is the user's, and the row found is one of the user's rows |
| RiskManagement.GetSpecOutcome | backend/app/api/risk_management_router.py:19-35 | `get` returns the user's existing row and changes nothing, or inserts and returns a row with the next id and the defaults 10.0, 5.0 and 15.0 |
| RiskManagement.UpdateSpecOutcome | backend/app/api/risk_management_router.py:45-67 | `update` overwrites the three values of the user's row in place, keeping its id and the row count, or inserts a row with the next id and the given values |
| RiskManagement.GetSpec | backend/app/api/risk_management_router.py:13-35 | the returned row belongs to the requesting user |
| RiskManagement.UpdateSpec | backend/app/api/risk_management_router.py:38-67 | the returned row belongs to the requesting user and holds the supplied values |
| RiskManagement.GetIdempotent | backend/app/api/risk_management_router.py:19-35 | a second `get` returns the same row and leaves the table as the first left it |
| RiskManagement.UpdateThenGet | backend/app/api/risk_management_router.py:13-67 | after an `update`, `get` returns the updated row with the supplied values and inserts nothing |
| RiskManagement.WritesKeepOthers | backend/app/api/risk_management_router.py:19-62 | neither route changes what another user's settings lookup finds |
| RiskManagement.RoutesKeepInvariant | backend/app/api/risk_management_router.py:24-62 | both routes keep ids distinct and below the next id, and keep at most one row per user |
| RiskManagement.RiskTable.GetRiskSettings | backend/app/api/risk_management_router.py:13-35 | the route returns the row of the `get` specification and leaves its table, with the next id advanced only on insertion |
| RiskManagement.RiskTable.UpdateRiskSettings | backend/app/api/risk_management_router.py:38-67 | the route returns the row of the `update` specification and leaves its table, with the next id advanced only on insertion |
| SymbolItems.Normalize | backend/app/api/watchlist_router.py:33 | the normalised symbol is no longer than the input, has no whitespace at either end and no lower-case ASCII letter |
| SymbolItems.NormalizeIdempotent | backend/app/api/watchlist_router.py:33 | normalising twice is normalising once |
| SymbolItems.NormalizePadded | backend/app/api/watchlist_router.py:33 | whitespace around a symbol does not change its normal form |
| SymbolItems.NormalizeIgnoresCase | backend/app/api/watchlist_router.py:33 | a lower-cased symbol has the same normal form |
| SymbolItems.NormalizeBlank | backend/app/api/watchlist_router.py:33-39 | a whitespace-only symbol normalises to the empty string, the case the route refuses |
| SymbolItems.IsSymbolIffFixed | backend/app/api/watchlist_router.py:33-35 | the symbols a route can store are exactly the non-empty fixed points of normalisation |
| SymbolItems.ItemsOf | backend/app/api/watchlist_router.py:19-21 | the listing holds exactly the user's rows |
| SymbolItems.Find | backend/app/api/watchlist_router.py:42-45 | a found row is the user's and has the symbol; none is found exactly when no row has both |
| SymbolItems.AddSpecOutcome | backend/app/api/watchlist_router.py:33-63 | `add` succeeds exactly when the normalised symbol is non-empty and the user does not hold it; success stores the normalised symbol under the next id; an empty symbol is 400 "Symbol cannot be empty"; every refusal is a 400 and changes nothing |
| SymbolItems.AddSpecKeepsInvariant | backend/app/api/watchlist_router.py:33-61 | `add` keeps ids fresh, stored symbols normalised and non-empty, and no user holding a symbol twice |
| SymbolItems.RemoveSpecKeepsInvariant | backend/app/api/watchlist_router.py:73-89 | `remove` succeeds exactly when the user holds the normalised symbol, keeps the invariant, and afterwards the user does not hold it |
| SymbolItems.ClearSpecEmpties | backend/app/api/watchlist_router.py:98-104 | after `clear` the user has no rows, and the count reported is the number of rows removed |
| SymbolItems.ClearSpecKeepsInvariant | backend/app/api/watchlist_router.py:98-102 | `clear` keeps the invariant |
| SymbolItems.WritesKeepOthers | backend/app/api/watchlist_router.py:42-100 | `add`, `remove` and `clear` leave every other user's rows as they were |
| SymbolItems.AddThenRemove | backend/app/api/watchlist_router.py:27-89 | removing a symbol just added, in the same spelling, restores the table |
| SymbolItems.AddTwiceRefused | backend/app/api/watchlist_router.py:41-51 | adding the same symbol again, in any spelling with the same normal form, is 400 "Symbol already in …" |
| SymbolItems.IdsUnique | backend/app/api/watchlist_router.py:86 | with no clashing rows, a row is the only one with its id, so deleting by id removes only it |
| SymbolItems.KeysUnique | backend/app/api/watchlist_router.py:75-78 | with no clashing rows, a row is the only one of its user with its symbol |
| SymbolItems.SymbolTable.Get | backend/app/api/watchlist_router.py:19-23 | the listing holds exactly the table's rows owned by the user |
| SymbolItems.SymbolTable.Add | backend/app/api/watchlist_router.py:27-63 | the answer and the rows left are those of the `add` specification, the next id moves only on success, and the table stays valid |
| SymbolItems.SymbolTable.Remove | backend/app/api/watchlist_router.py:67-89 | the answer and the rows left are those of the `remove` specification, and the table stays valid |
| SymbolItems.SymbolTable.Clear | backend/app/api/watchlist_router.py:93-102 | the count and the rows left are those of the `clear` specification, and the table stays valid |
| Watchlist.GetWatchlist | backend/app/api/watchlist_router.py:13-23 | the watchlist holds exactly the user's rows of the watchlist table |
| Watchlist.AddToWatchlist | backend/app/api/watchlist_router.py:26-63 | `add` on the watchlist table, with "watchlist" in the duplicate message; the next id advances exactly when a row is added |
| Watchlist.RemoveFromWatchlist | backend/app/api/watchlist_router.py:66-89 | `remove` on the watchlist table, with "watchlist" in the messages; the next id is unchanged |
| Watchlist.ClearWatchlist | backend/app/api/watchlist_router.py:92-104 | the user's rows are gone, the next id is unchanged, and the message is "Cleared n items from watchlist", n being how many the user had |
| PatternTrends.GetPatternTrends | backend/app/api/pattern_trends_router.py:13-23 | the list holds exactly the user's rows of the pattern-trends table |
| PatternTrends.AddToPatternTrends | backend/app/api/pattern_trends_router.py:26-63 | `add` on the pattern-trends table, with "pattern trends" in the duplicate message; the next id advances exactly when a row is added |
| PatternTrends.RemoveFromPatternTrends | backend/app/api/pattern_trends_router.py:66-89 | `remove` on the pattern-trends table, with "pattern trends" in the messages; the next id is unchanged |
| ChatRouter.MessagesOfExact | backend/app/api/chat_router.py:91-93 | the user's listing holds exactly the log's rows of that user |
| ChatRouter.MessagesOfAppend | backend/app/api/chat_router.py:91-93 | filtering by user distributes over appending to the log, keeping log order |
| ChatRouter.GetChatMessages | backend/app/api/chat_router.py:82-107 | the listing has one item per row of the user, in log order, with that row's id, role and content |
| ChatRouter.LastNSuffix | backend/app/api/chat_router.py:159 | the newest `n` rows are a suffix of the user's rows |
| ChatRouter.RecentWindow | backend/app/api/chat_router.py:157-159 | the history window holds the newest ten of the user's rows (fewer when the user has fewer), all the user's, oldest first |
| ChatRouter.ConversationHistory | backend/app/api/chat_router.py:157-167 | the loop over the reversed newest-first query builds exactly the window of the newest ten rows, oldest first, as role and content entries |
| ChatRouter.ModelInputShape | backend/app/api/chat_router.py:155-184 | the model input starts with the system prompt, holds at most ten history entries, and ends with the stripped message twice, once as the flushed row and once appended |
| ChatRouter.ClientSpec | backend/app/api/chat_router.py:22-47 | a cached client is returned as is; otherwise a client exists exactly when the key is not blank and construction does not raise, and it carries that key |
| ChatRouter.ClientCachedForever | backend/app/api/chat_router.py:29-44 | once a client is built, later calls return it whatever the key and whether construction would fail |
| ChatRouter.ClientCache.GetOpenAiClient | backend/app/api/chat_router.py:22-47 | returns the client of the specification and leaves it as the cache content |
| ChatRouter.ChatSession.Add | backend/app/api/chat_router.py:133-134 | a flushed row takes the next id and joins the uncommitted rows; the committed log is unchanged |
| ChatRouter.ChatSession.Commit | backend/app/api/chat_router.py:149 | the uncommitted rows are appended to the log |
| ChatRouter.ChatSession.Rollback | backend/app/api/chat_router.py:216 | the uncommitted rows are dropped and the ids they took are not given back |
| ChatRouter.ChatMessage | backend/app/api/chat_router.py:110-234 | the request's answer, committed log, next id and client cache are those of the chat specification, for the model's reply to the input the request builds |
| ChatRouter.ChatSpec | backend/app/api/chat_router.py:110-234 | a blank message answers 400 and changes nothing; the log only grows, by at most two rows; a success's first new row is the stripped question |
| ChatRouter.Answer | backend/app/api/chat_router.py:194-234 | the log only grows and the client is kept; success exactly for a non-empty reply, which stores the question and then an assistant row holding the reply; a raised call stores one assistant row only |
| ChatRouter.Process | backend/app/api/chat_router.py:127-234 | past the emptiness check, the outcome is that of the chat specification |
| ChatRouter.Unconfigured | backend/app/api/chat_router.py:140-153 | without a client, the question and the fixed notice are committed and the answer is 503 with the notice |
| ChatRouter.AskModel | backend/app/api/chat_router.py:155-192 | the model receives the system prompt, the history and the stripped message, and the outcome is the answer to its reply |
| ChatRouter.Respond | backend/app/api/chat_router.py:194-234 | an empty reply rolls back and answers 500 "No response from AI service"; a reply is committed with the question and returned; an exception rolls the question back, commits only the apology, and answers 500 with its text |
| ChatRouter.NoClientPath | backend/app/api/chat_router.py:137-153 | without a client the outcome is 503 with the question and the notice stored, whatever the model would say |
| ChatRouter.ModelPath | backend/app/api/chat_router.py:155-192 | with a client, the model is asked about the input built once the question is flushed, and the outcome is the answer to that reply |
| ChatRouter.ChatAnswers | backend/app/api/chat_router.py:155-234 | with a client, the outcome is the answer to the reply |
| ChatRouter.AnswerByReply | backend/app/api/chat_router.py:194-234 | an empty reply, a text reply and an exception give the answers and the stored rows of the outcome table |
| ChatRouter.ChatByPath | backend/app/api/chat_router.py:121-234 | on each of the five ways through the route, the answer and the rows it adds to the log are those of the outcome table |
| ChatRouter.ChatStoresExchange | backend/app/api/chat_router.py:140-213 | a user row followed by an assistant row is stored exactly when the answer is a success or the 503 |
| ChatRouter.ExchangeByPath | backend/app/api/chat_router.py:140-213 | in the outcome table, a question and an answer are added exactly on the unconfigured and answered ways, and the answer is then a success or the 503 exactly there |
| ChatRouter.ChatStoresNothing | backend/app/api/chat_router.py:121-217 | nothing is stored exactly when the message is blank or the model's reply is empty |
| ChatRouter.NothingByPath | backend/app/api/chat_router.py:121-217 | in the outcome table, nothing is added exactly on the blank-message and empty-reply ways |
| ChatRouter.ChatStoresApology | backend/app/api/chat_router.py:218-234 | only an assistant row is stored exactly when the answer is a 500 other than "No response from AI service" |
| ChatRouter.ApologyByPath | backend/app/api/chat_router.py:218-234 | in the outcome table, only the apology is added exactly on the exception way |
| ChatRouter.FailedIsNotNoResponse | backend/app/api/chat_router.py:198-233 | the 500 of an exception is never the 500 of an empty reply |
| ChatRouter.ChatAppendOnly | backend/app/api/chat_router.py:127-229 | the log only grows, and only by rows of the caller |
| ChatRouter.OwnRowsByPath | backend/app/api/chat_router.py:128-227 | every row the outcome table adds is the caller's, and its only user row is the question |
| ChatRouter.ChatStoresStrippedQuestion | backend/app/api/chat_router.py:121-132 | a blank message is refused with 400 exactly when it is blank, before anything is stored or any client is built; a stored question is the stripped, non-empty message |
| ChatRouter.ChatOkShape | backend/app/api/chat_router.py:195-213 | a success returns the model's non-empty text and stores exactly the question and that text under the next two ids |
| ChatRouter.ChatThenRead | backend/app/api/chat_router.py:82-213 | after a success, the user's listing ends with the question and the answer |
| ChatRouter.ReadAfterExchange | backend/app/api/chat_router.py:91-104 | two rows of one user appended to the log end that user's listing |
| ChatRouter.ChatKeepsOthers | backend/app/api/chat_router.py:127-229 | no chat request changes another user's listing |
| ChatRouter.AppendOwn | backend/app/api/chat_router.py:91-93 | rows of one user appended to the log extend that user's listing and no one else's |
| TradesRouter.FirstTruthy | backend/app/api/trades_router.py:31 | the result is the fallback or the value of a truthy candidate, and is non-empty when the fallback is |
| TradesRouter.DisplayName | backend/app/api/trades_router.py:31 | the display name is never empty and is the name, the username, the email or "User" |
| TradesRouter.GetTrades | backend/app/api/trades_router.py:14-35 | the route fails exactly when the cookie dependency fails; a success lists the two sample trades and greets a user stored in the table |
| TradesRouter.DisplayNameIsFirstTruthy | backend/app/api/trades_router.py:31 | the display name is the first non-empty of name, username and email, else "User", and is never empty |
| TradesRouter.TradesNeedAuth | backend/app/api/trades_router.py:14-18 | the route fails exactly when the cookie dependency fails, with the dependency's 401 |
| TradesRouter.TradesGreetUser | backend/app/api/trades_router.py:25-35 | an authenticated user stored in the table is greeted "Welcome back, name!" and gets the two sample trades |
| TradesRouter.TradesIndependentOfUser | backend/app/api/trades_router.py:25-28 | the trades are the same whoever asks |
| SearchStock.OrEmpty | frontend/src/lib/searchStock.ts:44-45 | a missing or empty field becomes the empty string; any other value is kept |
| SearchStock.MapResults | frontend/src/lib/searchStock.ts:43-48 | each raw result maps, in order, to its ticker and name (empty when missing) and its market and exchange as given |
| SearchStock.Find | frontend/src/lib/searchStock.ts:96 | a found result has the ticker and is one of the results; none is found exactly when no result has it |
| SearchStock.Search | frontend/src/lib/searchStock.ts:17-53 | a refused query or key gives no results; any result comes from an accepted query and key and an ok, non-"ERROR" response carrying `results`, one result per raw result |
| SearchStock.ResolveTicker | frontend/src/lib/searchStock.ts:63-103 | `null` exactly when the guard refuses, or when the direct lookup names no ticker and the search finds nothing |
| SearchStock.SearchRefused | frontend/src/lib/searchStock.ts:21-23 | a blank query or a missing key gives no results, whatever the network would answer |
| SearchStock.SearchFailures | frontend/src/lib/searchStock.ts:29-52 | a non-ok response, an "ERROR" status, missing results or an exception give no results |
| SearchStock.SearchMapsEach | frontend/src/lib/searchStock.ts:36-48 | otherwise there is one result per raw result, carrying its ticker and name, or the empty string when missing |
| SearchStock.ResolveRefused | frontend/src/lib/searchStock.ts:67-69 | a blank query or a missing key resolves to nothing, whatever the network would answer |
| SearchStock.DirectLookupWins | frontend/src/lib/searchStock.ts:71-83 | a direct lookup of the trimmed, upper-cased query that names a ticker decides the answer, whatever the search would find |
| SearchStock.SearchFallback | frontend/src/lib/searchStock.ts:88-102 | after a missed lookup, nothing resolves exactly when the search finds nothing; a result whose ticker is the normalised query wins; otherwise the first result's ticker |
| SearchStock.ResolvedFromReplies | frontend/src/lib/searchStock.ts:63-103 | a resolved ticker came from the lookup or is the ticker of a search result |
| SearchStock.EmptyTickerResolved | frontend/src/lib/searchStock.ts:44-102 | a first search hit without a ticker, when no hit matches, resolves to the empty string and not to nothing |
| Autocomplete.EventsKeepInv | frontend/src/components/StockSearchAutocomplete.tsx:29-138 | every event keeps the highlight at -1 or on a suggestion, and shows the dropdown only over two or more suggestions |
| Autocomplete.QueryChanged | frontend/src/components/StockSearchAutocomplete.tsx:55-72 | the invariant is kept; a short query clears and hides the suggestions and the highlight; a longer one leaves them as they are, and loading starts exactly when a search starts |
| Autocomplete.ResultsArrived | frontend/src/components/StockSearchAutocomplete.tsx:73-87 | the results become the suggestions with nothing highlighted and loading over; the dropdown opens exactly over two or more results, and the invariant holds |
| Autocomplete.KeyDown | frontend/src/components/StockSearchAutocomplete.tsx:104-140 | the invariant is kept; a closed dropdown or any other key changes nothing; a suggestion is chosen exactly on Enter with the dropdown open, is one of the suggestions, and leaves the cleared state; otherwise the suggestions stay |
| Autocomplete.ArrowDownSteps | frontend/src/components/StockSearchAutocomplete.tsx:115-120 | ArrowDown moves the highlight one down, stays on the last suggestion, changes nothing else and prevents the default |
| Autocomplete.ArrowUpSteps | frontend/src/components/StockSearchAutocomplete.tsx:121-124 | ArrowUp moves the highlight one up, from the first suggestion or from none goes to none, changes nothing else and prevents the default |
| Autocomplete.DownThenUp | frontend/src/components/StockSearchAutocomplete.tsx:115-124 | ArrowUp undoes ArrowDown unless the highlight was on the last suggestion |
| Autocomplete.PressDownClamps | frontend/src/components/StockSearchAutocomplete.tsx:117-119 | `n` ArrowDowns move the highlight `n` down but never past the last suggestion, and change nothing else |
| Autocomplete.EnterSelects | frontend/src/components/StockSearchAutocomplete.tsx:125-133 | with the dropdown open, Enter selects the highlighted suggestion, or the first when none is highlighted, then clears the list and hides the dropdown |
| Autocomplete.EscapeHides | frontend/src/components/StockSearchAutocomplete.tsx:134-138 | Escape hides the dropdown and clears the highlight but keeps the suggestions, so a later focus shows them again |
| Autocomplete.KeysIgnoredWhenClosed | frontend/src/components/StockSearchAutocomplete.tsx:104-112 | with autocomplete off, the dropdown hidden or no suggestions, no key changes anything or is intercepted |
| Autocomplete.ShortQueryClears | frontend/src/components/StockSearchAutocomplete.tsx:60-65 | a blank query or one under two characters clears and hides the suggestions and the highlight, with autocomplete on or off |
| Autocomplete.VisibleOnlyForSeveral | frontend/src/components/StockSearchAutocomplete.tsx:75-79 | once results arrive they are the suggestions, nothing is highlighted, loading ends, and the dropdown shows exactly when autocomplete is on and there are two or more |
| Autocomplete.RefusedQuerySuggestsNothing | frontend/src/components/StockSearchAutocomplete.tsx:75-78 | a query the search refuses leaves nothing to suggest and no dropdown |
| Autocomplete.SearchBox.OnQuery | frontend/src/components/StockSearchAutocomplete.tsx:55-72 | the query effect's immediate part leaves the state of the query transition |
| Autocomplete.SearchBox.OnSearchDone | frontend/src/components/StockSearchAutocomplete.tsx:73-87 | the debounced callback leaves the state for the search's results |
| Autocomplete.SearchBox.OnFocus | frontend/src/components/StockSearchAutocomplete.tsx:162-166 | focus shows the dropdown when autocomplete is on and there are two or more suggestions |
| Autocomplete.SearchBox.OnClickOutside | frontend/src/components/StockSearchAutocomplete.tsx:38-52 | an outside click while the dropdown is shown hides it and clears the highlight |
| Autocomplete.SearchBox.HandleSelect | frontend/src/components/StockSearchAutocomplete.tsx:96-102 | selecting passes the ticker to `onChange` and the ticker and name to `onSelect`, then clears everything |
| Autocomplete.SearchBox.HandleKeyDown | frontend/src/components/StockSearchAutocomplete.tsx:104-140 | the key press leaves the state, selects the suggestion and prevents the default as the key transition says |
| RegisterForm.ValidIff | frontend/src/components/auth/RegisterForm.tsx:12-22 | the form validates exactly when the name has a character, the identifier three, both passwords six, and the passwords agree |
| RegisterForm.Validate | frontend/src/components/auth/RegisterForm.tsx:12-22 | at most five issues; the mismatch, when present, comes last; the first issue is the name's exactly when the name is empty |
| RegisterForm.Body | frontend/src/components/auth/RegisterForm.tsx:44-51 | the body carries the name and the password, and exactly one of `email` and `username` |
| RegisterForm.IssuesPerField | frontend/src/components/auth/RegisterForm.tsx:14-16 | each length check raises its own issue exactly when it fails |
| RegisterForm.ConfirmIssues | frontend/src/components/auth/RegisterForm.tsx:17-22 | the confirmation carries its length issue and, separately, the mismatch issue exactly when the passwords differ |
| RegisterForm.MismatchFlagAgainstSchema | frontend/src/components/auth/RegisterForm.tsx:19-41 | the live mismatch flag implies the schema's mismatch issue, and the schema alone reports a mismatch exactly when one of the passwords is empty |
| RegisterForm.BodyRouting | frontend/src/components/auth/RegisterForm.tsx:44-51 | the body holds the name, the password, and the identifier under `email` when it contains "@" and under `username` otherwise, and nothing else |
| RegisterForm.EmailBodyAccepted | frontend/src/components/auth/RegisterForm.tsx:43-51 | a valid form whose identifier `EmailStr` accepts registers under the normalised address and the password |
| RegisterForm.UsernameBodyRefused | frontend/src/components/auth/RegisterForm.tsx:48-50 | a body sent under `username` is always refused by the backend's register schema, with an issue on `email` |
| LoginForm.ValidIff | frontend/src/components/auth/LoginForm.tsx:10-13 | the form validates exactly when the identifier has three characters and the password six, each check raising its own issue |
| LoginForm.Validate | frontend/src/components/auth/LoginForm.tsx:10-13 | at most two issues, no issue twice; the first is the identifier's exactly when the identifier is under three characters |
| LoginForm.Body | frontend/src/components/auth/LoginForm.tsx:25-27 | the body carries the password and no name, and exactly one of `email` and `username` |
| LoginForm.BodyRouting | frontend/src/components/auth/LoginForm.tsx:25-27 | the body holds the password and the identifier, under `email` when it contains "@" and under `username` otherwise |
| LoginForm.BackendAcceptsBody | frontend/src/components/auth/LoginForm.tsx:24-33 | the backend takes a valid form's username as is, takes its email as the normalised address when `EmailStr` accepts it with a non-empty address, and refuses it on `email` when `EmailStr` does not |
| BackendUrl.GetBackendUrl | frontend/src/lib/api/get-backend-url.ts:16-39 | the URL is never empty and is the local default, the trimmed internal URL or the trimmed browser URL |
| BackendUrl.GetBackendUrlWithLog | frontend/src/lib/api/get-backend-url.ts:44-50 | the URL is that of `getBackendUrl`, and a log line is written exactly outside production |
| BackendUrl.UrlIsTrimmed | frontend/src/lib/api/get-backend-url.ts:17-18 | a configured URL is used without surrounding whitespace |
| BackendUrl.DockerUsesInternal | frontend/src/lib/api/get-backend-url.ts:26-28 | inside Docker, a configured internal URL always wins |
| BackendUrl.DockerHostSkippedOutside | frontend/src/lib/api/get-backend-url.ts:22-34 | outside Docker, an internal URL naming a Docker host is skipped for the browser URL or the local default |
| BackendUrl.Precedence | frontend/src/lib/api/get-backend-url.ts:38 | otherwise the browser URL comes first, then the internal URL, then the local default |
| BackendUrl.BlankInternalIsUnset | frontend/src/lib/api/get-backend-url.ts:17 | a whitespace-only internal URL acts as if unset |
| BackendUrl.BlankBrowserIsUnset | frontend/src/lib/api/get-backend-url.ts:18 | a whitespace-only browser URL acts as if unset |
| BackendUrl.NothingConfigured | frontend/src/lib/api/get-backend-url.ts:16-39 | with neither URL set, the local default is used |
| MarketStatus.GetMarketStatus | frontend/src/lib/marketStatus.ts:34-36 | the status is "Open" exactly when the market is open, and "Closed" otherwise |
| MarketStatus.GetMarketStatusSubtitle | frontend/src/lib/marketStatus.ts:42-44 | the subtitle is "Trading active" exactly when the market is open, and "Market closed" otherwise |
| MarketStatus.IsMarketOpen | frontend/src/lib/marketStatus.ts:13-28 | Saturday and Sunday are closed; on any other day, for a clock reading with minute 0 to 59, the market is open exactly from 9:30 through 15:59 |
| MarketStatus.WeekendClosed | frontend/src/lib/marketStatus.ts:18-21 | on Saturday and Sunday the market is closed at every hour |
| MarketStatus.OpenByClock | frontend/src/lib/marketStatus.ts:13-27 | on a weekday the market is open from 9:30 up to but not including 16:00 |
| MarketStatus.Boundaries | frontend/src/lib/marketStatus.ts:24-27 | open at 9:30 and 15:59, closed at 9:29 and 16:00 |
| Header.ExactActive | frontend/src/components/Header.tsx:12-13 | a link is active on its own path |
| Header.IsActive | frontend/src/components/Header.tsx:12-13 | an active link is a prefix of the path; a link is active on its own path; the dashboard link is active exactly on its own path |
| Header.PrefixActive | frontend/src/components/Header.tsx:12-13 | every link but the dashboard is active exactly on paths that start with it |
| Header.DashboardExactOnly | frontend/src/components/Header.tsx:12-13 | the dashboard link is active only on the exact path `/dashboard` |
| Header.NoPathNoActive | frontend/src/components/Header.tsx:12-13 | without a path no link is active |
| Header.SegmentBlind | frontend/src/components/Header.tsx:13 | the prefix test ignores segment boundaries: `/settings` is active on `/settings-x`, while the dashboard is not active on `/dashboard/x` |
| TsUtils.CapitalizeWords | frontend/src/lib/utils.ts:17-21 | each word is capitalised, in order |
| TsUtils.CapitalizeName | frontend/src/lib/utils.ts:10-24 | a blank or missing name is returned as given, and the result is missing exactly when the name is |
| TsUtils.PiecesAreWords | frontend/src/lib/utils.ts:16 | the pieces of splitting the trimmed name on whitespace runs are its words, and capitalising keeps each non-empty and free of whitespace |
| TsUtils.CapitalizedNameShape | frontend/src/lib/utils.ts:11-23 | a non-blank name comes back non-empty, with no whitespace at either end, and with single spaces as its only whitespace |
| TsUtils.CapitalizedNameWords | frontend/src/lib/utils.ts:16-23 | the result's words are the input's words capitalised, as many as there were |
| TsUtils.CapitalizeNameIdempotent | frontend/src/lib/utils.ts:10-24 | capitalising a capitalised name changes nothing |
| TsUtils.AgreesWithBackend | frontend/src/lib/utils.ts:10-24 | on names whose characters both languages class alike as whitespace, the frontend and backend capitalisers agree |
| TsUtils.AsciiAgrees | frontend/src/lib/utils.ts:10-24 | on ASCII names without U+001C to U+001F, the two capitalisers agree |
| TsUtils.TwinsDisagreeOnSeparators | frontend/src/lib/utils.ts:16 | the two capitalisers differ on U+001C, which Python's `split()` treats as a separator and JavaScript's `\s` does not |
| Text.Trim | backend/app/core/utils.py:18 | a stripped string is empty or starts and ends with a non-whitespace character |
| Text.TrimClean | backend/app/core/utils.py:18 | stripping an already stripped string changes nothing |
| Text.TrimPadded | backend/app/core/utils.py:18 | whitespace added around a string does not change what stripping it gives |
| Text.TrimLower | backend/app/api/watchlist_router.py:33 | lower-casing commutes with stripping |
| Text.BlankIffAllSpace | backend/app/api/watchlist_router.py:33-35 | a string strips to nothing exactly when all its characters are whitespace |
| Text.WordsOfJoin | backend/app/core/utils.py:18-26 | splitting a single-space join of clean words gives back those words |
| Text.JoinShape | backend/app/core/utils.py:26 | a single-space join of clean words is empty only for no words, has no whitespace at either end, and its only whitespace is single spaces |
| Text.SplitRunsIsWords | frontend/src/lib/utils.ts:16 | on a stripped, non-empty string, splitting on whitespace runs is Python's `split()` |
| Text.CapitalizedIdempotent | backend/app/core/utils.py:24 | capitalising a capitalised word changes nothing |
| Text.IndexOf | backend/app/api/deps.py:33 | the index found holds the character and no earlier position does, or the character does not occur |
| Text.ParseIntOfIntToString | backend/app/api/deps.py:56 | `int` of the decimal text of an integer gives that integer back, so the subject written at login reads back as the same user id |
| ChatRouter.MessagesOf | backend/app/api/chat_router.py:91-93 | every message listed is the user's, and the listing is no longer than the log |
| SymbolItems.AddSpec | backend/app/api/watchlist_router.py:33-63 | a refusal leaves the rows as they were; a success appends exactly the row it returns |
| SymbolItems.RemoveSpec | backend/app/api/watchlist_router.py:73-89 | a refusal leaves the rows as they were |
| SymbolItems.ClearSpec | backend/app/api/watchlist_router.py:98-104 | clearing never fails |
| CrudPortfolio.DeleteSpec | backend/app/crud.py:15-20 | when no row is found, the rows are left as they were |
| CoreUtils.WordsOfStripped | backend/app/core/utils.py:14-18 | a name that is not blank has at least one word after stripping |

## Left out

- The OAuth login and callback routes, change-password, the debug routers and the market-data proxy are not part of this model.
- `get_current_user` lives in `app.api.auth`, which this model does not cover. It is imported by backend/app/api/users.py. The theme routes take the current user as a given row.
- The `Portfolio` table class that backend/app/crud.py queries is not part of this model, because backend/app/db/models.py defines only `User`. A portfolio row is taken to hold `id`, `owner_id` and the `PortfolioCreate` fields `ticker` and `quantity` from backend/app/schemas/portfolio.py. `created_at` is left out.
- Database engines and sessions are replaced by the table classes. Each table is a sequence of rows in insertion order, which stands for `created_at` order. Timestamps themselves are left out. Ids consumed by a rolled-back insert are not reused, as with a database sequence.
- Python `None` and TypeScript `null`/`undefined` are both `None` of an `Option`.
- `EmailStr` is a parameter, `EmailStr.Normalizer`, because its grammar and its normal form are a foreign library's. The parameter either refuses a string or returns the normalised address, and the request parsers, `register`, `login` and `UserCreate` carry, store and compare that normalised value.
- The OpenAI call, the Polygon requests and every `fetch` are parameters: a reply, an empty reply, or an exception. Logging and console output are left out.
- JWT encoding and decoding and bcrypt are abstract functions. Their signatures, formats and bcrypt's 72-byte truncation are left out.
- Security.HashPassword: its contract holds under `Sound()`, the stated bcrypt law `verify(p, hash(p))`, and not for an arbitrary hasher.
- Security.WithExpiry: the input claims are immutable values, so the copy that keeps the caller's dictionary unmutated has nothing to show beyond the returned claims.
- Case mapping is ASCII only. Python's and JavaScript's full Unicode case mapping, and JavaScript's UTF-16 code units, are left out.
- Text.ParseInt: accepts ASCII digits only. Python's `int()` also accepts the other Unicode decimal digits, such as Arabic-Indic or full-width digits. The subject ids it reads back are written by `str(n)`, which only writes ASCII digits.
- TsUtils.AsciiAgrees: excludes the four ASCII characters U+001C to U+001F. Python's `split()` breaks on them and JavaScript's `\s` does not, so the two capitalisers really differ there (`TsUtils.TwinsDisagreeOnSeparators`).
- The risk-setting values are `real`s that are only stored. The sample trade prices are decimal constants. No floating-point arithmetic is modelled.
- The time-zone conversion in `isMarketOpen` is left out. The day of week, hour and minute in Eastern time are parameters.
- The autocomplete's 300 ms debounce, timer cancellation and the ordering of overlapping asynchronous searches are left out. Only the state each event leaves is modelled.
- The autocomplete's `catch` branch is left out, because `searchStock` catches everything itself and so never rejects.
- The zod refinement of `RegisterSchema` is taken to run alongside the length checks, so both kinds of issue are reported together.
- The Next.js proxy routes are taken to forward request bodies unchanged.
- Rendering, theming, alerts, redirects, `localStorage` and the remaining presentational components are left out.
- The `/auth/me` and dependency routes take the decoder's result as `Ok(claims)`, `Expired` or `Invalid`. How python-jose reaches each outcome is left out.
