/**
 * The authentication routes (backend/app/api/auth_router.py): request body
 * validation, `/register`, `/login` with its env-aware cookie, `/logout`,
 * and `/me`, which carries its own copy of the token logic.
 */
module AuthRouter {
  import opened Wrappers
  import opened Text
  import opened Config
  import opened Security
  import opened Models
  import opened Deps
  import opened EmailStr

  // ---------------------------------------------------------------------------
  // Request bodies

  /** A JSON body: the string-valued keys it carries (`null` reads as absent). */
  type Body = map<string, string>

  /** `RegisterRequest` once validated. */
  datatype RegisterRequest = RegisterRequest(email: string, password: string)

  /** `LoginRequest` once validated. */
  datatype LoginRequest = LoginRequest(email: Option<string>, username: Option<string>, password: string)

  /** Python truthiness of an optional string. */
  predicate Truthy(o: Option<string>) {
    o.Some? && o.value != []
  }

  function Field(body: Body, key: string): Option<string> {
    if key in body then Some(body[key]) else None
  }

  /**
   * Validation of `RegisterRequest`: `email` must be present and pass
   * `EmailStr`, `password` present with at least six characters. The error
   * lists the failing fields (a 422 response); the accepted request carries
   * the normalised address, not the string the client sent.
   */
  function ParseRegister(body: Body, normalize: Normalizer): (r: Result<RegisterRequest, seq<string>>)
    ensures r.Ok? <==> "email" in body && normalize(body["email"]).Some? && "password" in body && |body["password"]| >= 6
    ensures r.Ok? ==> r.value == RegisterRequest(normalize(body["email"]).value, body["password"])
    ensures r.Err? ==> ("email" in r.error <==> "email" !in body || normalize(body["email"]).None?)
    ensures r.Err? ==> ("password" in r.error <==> "password" !in body || |body["password"]| < 6)
  {
    var errors :=
      (if "email" !in body || normalize(body["email"]).None? then ["email"] else [])
      + (if "password" !in body || |body["password"]| < 6 then ["password"] else []);
    if errors == [] then Ok(RegisterRequest(normalize(body["email"]).value, body["password"])) else Err(errors)
  }

  /**
   * Validation of `LoginRequest`: field checks first (an `email`, when given,
   * must pass `EmailStr` and is replaced by the normalised address; `password`
   * at least six characters), then the model validator, which demands a
   * truthy `email` or `username` (error at `body`).
   */
  function ParseLogin(body: Body, normalize: Normalizer): (r: Result<LoginRequest, seq<string>>)
    ensures r.Ok? <==>
      && ("email" in body ==> normalize(body["email"]).Some?)
      && "password" in body && |body["password"]| >= 6
      && (Truthy(OptionalField(body, "email", normalize)) || Truthy(Field(body, "username")))
    ensures r.Ok? ==> r.value == LoginRequest(OptionalField(body, "email", normalize), Field(body, "username"), body["password"])
    ensures r == Err(["body"]) <==> r.Err? && "email" !in r.error && "password" !in r.error
  {
    var email := OptionalField(body, "email", normalize);
    var errors :=
      (if "email" in body && email.None? then ["email"] else [])
      + (if "password" !in body || |body["password"]| < 6 then ["password"] else []);
    if errors != [] then Err(errors)
    else if !Truthy(email) && !Truthy(Field(body, "username")) then Err(["body"])
    else Ok(LoginRequest(email, Field(body, "username"), body["password"]))
  }

  // ---------------------------------------------------------------------------
  // /register

  const EmailTaken := HttpError(400, "Email already registered")
  const Registered := "User registered successfully"

  /**
   * `register`: refuse an email already in the table, otherwise insert a local
   * user with the bcrypt hash and every other column at its default. The
   * request's email is the normalised address, so the duplicate check and
   * the stored row both use it.
   */
  method Register(store: UserStore, req: RegisterRequest, h: Hasher) returns (r: Result<string, HttpError>)
    requires store.Valid()
    modifies store
    ensures store.Valid()
    ensures FindByEmail(old(store.users), req.email).Some? ==>
      r == Err(EmailTaken) && store.users == old(store.users) && store.nextId == old(store.nextId)
    ensures FindByEmail(old(store.users), req.email).None? ==>
      && r == Ok(Registered)
      && store.users == old(store.users) + [NewLocalUser(old(store.nextId), req.email, HashPassword(h, req.password))]
      && store.nextId == old(store.nextId) + 1
  {
    if FindByEmail(store.users, req.email).Some? {
      return Err(EmailTaken);
    }
    var u := NewLocalUser(store.nextId, req.email, HashPassword(h, req.password));
    store.users := store.users + [u];
    store.nextId := store.nextId + 1;
    r := Ok(Registered);
  }

  /**
   * Two spellings of one address ("a@x.com" and "a@X.com" under `EmailStr`)
   * are one account: once the first has registered, the second parses to the
   * same email, so `Register`'s duplicate check finds the new row and refuses,
   * and a login under the second spelling looks up that row.
   */
  lemma SpellingsAreOneAccount(users: seq<User>, nextId: int, first: Body, second: Body, login: Body,
                               normalize: Normalizer, h: Hasher)
    requires ParseRegister(first, normalize).Ok? && FindByEmail(users, ParseRegister(first, normalize).value.email).None?
    requires "email" in second && normalize(second["email"]) == normalize(first["email"])
    requires "email" in login && normalize(login["email"]) == normalize(first["email"])
    ensures var req := ParseRegister(first, normalize).value;
      var u := NewLocalUser(nextId, req.email, HashPassword(h, req.password));
      && (ParseRegister(second, normalize).Ok? ==>
            FindByEmail(users + [u], ParseRegister(second, normalize).value.email) == Some(u))
      && (ParseLogin(login, normalize).Ok? && req.email != [] ==>
            ParseLogin(login, normalize).value.email == Some(req.email)
            && (exists v :: v in users + [u] && LoginKeyMatches(ParseLogin(login, normalize).value, v))
            && FindByEmail(users + [u], ParseLogin(login, normalize).value.email.value) == Some(u))
  {
    var req := ParseRegister(first, normalize).value;
    var u := NewLocalUser(nextId, req.email, HashPassword(h, req.password));
    assert u in users + [u];
  }

  // ---------------------------------------------------------------------------
  // /login and /logout

  const BadCredentials := HttpError(400, "Invalid email/username or password")

  /** The row `login` looks up: by email when one is given, else by username. */
  predicate LoginKeyMatches(req: LoginRequest, u: User) {
    if Truthy(req.email) then u.email == req.email.value
    else Truthy(req.username) && u.username == req.username
  }

  /** The lookup and password check of `login`. */
  function Authenticate(users: seq<User>, req: LoginRequest, h: Hasher): (r: Result<User, HttpError>)
    ensures r.Ok? ==> r.value in users && LoginKeyMatches(req, r.value)
    ensures r.Ok? ==> VerifyPassword(h, req.password, r.value.hashedPassword)
    ensures r.Err? ==> r.error == BadCredentials
  {
    var found :=
      if Truthy(req.email) then FindByEmail(users, req.email.value)
      else if Truthy(req.username) then FindByUsername(users, req.username.value)
      else None;
    if found.None? || !VerifyPassword(h, req.password, found.value.hashedPassword) then Err(BadCredentials)
    else Ok(found.value)
  }

  /**
   * With unique keys, login succeeds exactly when some row has the requested
   * email (or username) and the password verifies against its hash.
   */
  lemma AuthenticateIff(users: seq<User>, req: LoginRequest, h: Hasher)
    requires UniqueKeys(users)
    ensures Authenticate(users, req, h).Ok? <==>
      exists u :: u in users && LoginKeyMatches(req, u) && VerifyPassword(h, req.password, u.hashedPassword)
  {
    if u :| u in users && LoginKeyMatches(req, u) && VerifyPassword(h, req.password, u.hashedPassword) {
      if Truthy(req.email) {
        FindByEmailUnique(users, u);
      } else {
        FindByUsernameUnique(users, u);
      }
    }
  }

  /** A cookie as `set_cookie` writes it. */
  datatype Cookie = Cookie(
    name: string, value: string, httpOnly: bool, secure: bool,
    sameSite: string, maxAge: int, path: string, domain: Option<string>)

  /** What a handler asks the response to do with a cookie. */
  datatype CookieAction = SetCookie(cookie: Cookie) | DeleteCookie(name: string, path: string, domain: Option<string>)

  /** The outgoing response's cookie instructions, in the order they were issued. */
  class Response {
    var cookies: seq<CookieAction>

    constructor ()
      ensures cookies == []
    {
      cookies := [];
    }
  }

  /**
   * The session cookie `login` sets: HttpOnly, one day, path `/`; Secure and
   * SameSite=None in production, SameSite=Lax otherwise; a Domain only in
   * production with a non-empty `COOKIE_DOMAIN`.
   */
  function LoginCookie(s: Settings, token: string): (c: Cookie)
    ensures c.name == s.cookieName && c.value == token
    ensures c.httpOnly && c.maxAge == 24 * 60 * 60 && c.path == "/"
    ensures c.secure <==> IsProduction(s)
    ensures c.sameSite == "none" <==> IsProduction(s)
    ensures c.sameSite == "none" || c.sameSite == "lax"
    ensures c.sameSite == "none" ==> c.secure
    ensures c.domain.Some? <==> IsProduction(s) && HasCookieDomain(s)
    ensures c.domain.Some? ==> c.domain == s.cookieDomain
  {
    var prod := IsProduction(s);
    Cookie(s.cookieName, token, true, prod, if prod then "none" else "lax", 60 * 60 * 24, "/",
           if prod && HasCookieDomain(s) then s.cookieDomain else None)
  }

  /** The token `login` mints for a user: subject `str(user.id)`. */
  function LoginToken(jwt: Jwt, s: Settings, u: User, now: int): string {
    CreateAccessToken(jwt, s, map["sub" := Str(IntToString(u.id))], now)
  }

  datatype LoginResponse = LoginResponse(message: string, accessToken: string, tokenType: string)

  /** `login`: authenticate, mint a token, set it as the session cookie and return it. */
  method Login(store: UserStore, response: Response, req: LoginRequest, h: Hasher, jwt: Jwt, s: Settings, now: int)
    returns (r: Result<LoginResponse, HttpError>)
    modifies response
    ensures Authenticate(store.users, req, h).Err? ==>
      r == Err(BadCredentials) && response.cookies == old(response.cookies)
    ensures Authenticate(store.users, req, h).Ok? ==>
      var token := LoginToken(jwt, s, Authenticate(store.users, req, h).value, now);
      && r == Ok(LoginResponse("Login successful", token, "bearer"))
      && response.cookies == old(response.cookies) + [SetCookie(LoginCookie(s, token))]
  {
    var auth := Authenticate(store.users, req, h);
    if auth.Err? {
      return Err(auth.error);
    }
    var token := LoginToken(jwt, s, auth.value, now);
    response.cookies := response.cookies + [SetCookie(LoginCookie(s, token))];
    r := Ok(LoginResponse("Login successful", token, "bearer"));
  }

  /** `settings.COOKIE_DOMAIN or None`. */
  function LogoutDomain(s: Settings): (d: Option<string>)
    ensures d.Some? <==> HasCookieDomain(s)
    ensures d.Some? ==> d == s.cookieDomain
  {
    if HasCookieDomain(s) then s.cookieDomain else None
  }

  /** `logout`: ask the browser to drop the session cookie. */
  method Logout(response: Response, s: Settings) returns (message: string)
    modifies response
    ensures message == "Logged out"
    ensures response.cookies == old(response.cookies) + [DeleteCookie(s.cookieName, "/", LogoutDomain(s))]
  {
    response.cookies := response.cookies + [DeleteCookie(s.cookieName, "/", LogoutDomain(s))];
    message := "Logged out";
  }

  /**
   * `logout` names the same cookie (name, path, domain) that `login` set,
   * unless a `COOKIE_DOMAIN` is configured outside production: then login sets
   * a host-only cookie and logout targets the configured domain.
   */
  lemma LogoutTargetsLoginCookie(s: Settings, token: string)
    ensures var c := LoginCookie(s, token);
      c.name == s.cookieName && c.path == "/"
      && (c.domain == LogoutDomain(s) <==> IsProduction(s) || !HasCookieDomain(s))
  {
  }

  // ---------------------------------------------------------------------------
  // /me

  const InvalidToken := HttpError(401, "Invalid token")

  datatype MeResponse = MeResponse(id: int, email: string)

  /**
   * The token `read_me` takes from the header: `split(" ", 1)[1]` when the
   * lower-cased header starts with `"bearer "`, i.e. everything after the
   * seven-character prefix.
   */
  function MeHeaderToken(authorization: Option<string>): (t: Option<string>)
    ensures t.Some? <==> authorization.Some? && StartsWith(Lower(authorization.value), "bearer ")
    ensures t.Some? ==> t.value == authorization.value[7..]
  {
    if authorization.Some? && authorization.value != [] && StartsWith(Lower(authorization.value), "bearer ") then
      FirstSpaceOfBearer(authorization.value);
      Some(authorization.value[IndexOf(authorization.value, ' ') + 1..])
    else None
  }

  lemma FirstSpaceOfBearer(h: string)
    requires StartsWith(Lower(h), "bearer ")
    ensures IndexOf(h, ' ') == 6
  {
    var l := Lower(h);
    assert l[..7] == "bearer ";
    assert forall k :: 0 <= k < 6 ==> l[k] == l[..7][k] != ' ';
    assert l[6] == l[..7][6] == ' ';
    assert h[6] == ' ';
    assert ' ' !in h[..6];
    IndexOfAt(h, ' ', 6);
  }

  /**
   * `read_me`: header token (any case of "bearer"), else the `access_token`
   * cookie. A "bearer" header shuts the cookie out even when its token is
   * empty, and an empty token counts as none.
   */
  function MeToken(req: Request): (t: Option<string>)
    ensures t.Some? ==> t.value != []
    ensures t.Some? ==>
      t == MeHeaderToken(req.authorization)
      || (MeHeaderToken(req.authorization).None? && t == RequestCookie(req, "access_token"))
    ensures t.None? <==>
      if MeHeaderToken(req.authorization).Some? then MeHeaderToken(req.authorization).value == []
      else !Truthy(RequestCookie(req, "access_token"))
  {
    var fromHeader := MeHeaderToken(req.authorization);
    if fromHeader.Some? then (if fromHeader.value != [] then fromHeader else None)
    else if Truthy(RequestCookie(req, "access_token")) then RequestCookie(req, "access_token")
    else None
  }

  /** `read_me(authorization, access_token, db)` at clock reading `now`. */
  function ReadMe(req: Request, users: seq<User>, jwt: Jwt, s: Settings, now: int): (r: Result<MeResponse, HttpError>)
    ensures r.Err? ==> r.error.status == 401
    ensures r == Err(AuthRequired) <==> MeToken(req).None?
    ensures MeToken(req).Some? ==>
      var d := jwt.decode(MeToken(req).value, s.jwtSecretKey, s.jwtAlgorithm, now);
      && (r == Err(TokenExpired) <==> d.Expired?)
      && (r == Err(InvalidToken) <==> d.Invalid? || (d.Valid? && SubjectId(d.claims).None?))
      && (d.Valid? && SubjectId(d.claims).Some? ==>
            var id := SubjectId(d.claims).value;
            && (FindById(users, id).Some? ==>
                  r == Ok(MeResponse(id, FindById(users, id).value.email)))
            && (FindById(users, id).None? <==> r == Err(UserNotFound)))
    ensures r.Ok? ==> exists u :: u in users && r.value == MeResponse(u.id, u.email)
  {
    var tok := MeToken(req);
    if tok.None? then Err(AuthRequired)
    else
      match jwt.decode(tok.value, s.jwtSecretKey, s.jwtAlgorithm, now)
      case Expired => Err(TokenExpired)
      case Invalid => Err(InvalidToken)
      case Valid(claims) =>
        match SubjectId(claims)
        case None => Err(InvalidToken)
        case Some(id) =>
          match FindById(users, id)
          case None => Err(UserNotFound)
          case Some(u) => Ok(MeResponse(u.id, u.email))
  }

  /** The dependency's outcome in `read_me`'s vocabulary. */
  function AsMe(r: Result<User, HttpError>): Result<MeResponse, HttpError> {
    match r
    case Ok(u) => Ok(MeResponse(u.id, u.email))
    case Err(e) => Err(if e == InvalidOrExpired then InvalidToken else e)
  }

  /**
   * When the header is absent or a well-formed `Bearer <token>` and the cookie
   * is named `access_token`, `/me` answers as the shared dependency does, up to
   * the wording of the invalid-token error.
   */
  lemma ReadMeAgreesWithDependency(req: Request, users: seq<User>, jwt: Jwt, s: Settings, now: int)
    requires s.cookieName == "access_token"
    requires req.authorization.None? ||
      (StartsWith(req.authorization.value, "Bearer ") && req.authorization.value[7..] != []
       && ' ' !in req.authorization.value[7..])
    ensures ReadMe(req, users, jwt, s, now) == AsMe(GetCurrentUserFromCookie(req, users, jwt, s, now))
  {
    if req.authorization.Some? {
      var h := req.authorization.value;
      var t := h[7..];
      assert h[..7] == "Bearer ";
      assert Lower(h)[..7] == "bearer " by {
        assert forall k :: 0 <= k < 7 ==> Lower(h)[k] == LowerChar(h[..7][k]);
      }
      assert IndexOf(t, ' ') == |t|;
      assert t[..|t|] == t;
    }
  }

  /** A lower-case `bearer` header is accepted by `/me` and ignored by the dependency. */
  lemma LowercaseBearerOnlyForMe(s: Settings)
    ensures var req := Request(Some("bearer x"), map[]);
      MeToken(req) == Some("x") && SelectToken(req.authorization, RequestCookie(req, s.cookieName)).None?
  {
    var h := "bearer x";
    assert Lower(h)[..7] == "bearer " by {
      assert forall k :: 0 <= k < 7 ==> Lower(h)[k] == LowerChar(h[..7][k]);
    }
    assert h[7..] == "x";
    assert h[..7][0] != "Bearer "[0];
  }

  /** An empty `Bearer ` token: the dependency falls back to the cookie, `/me` answers 401. */
  lemma EmptyBearerFallsBackOnlyInDependency(users: seq<User>, jwt: Jwt, s: Settings, now: int)
    ensures var req := Request(Some("Bearer "), map[s.cookieName := "c"]);
      SelectToken(req.authorization, RequestCookie(req, s.cookieName)) == Some("c")
      && ReadMe(req, users, jwt, s, now) == Err(AuthRequired)
  {
    var h := "Bearer ";
    assert Lower(h)[..7] == "bearer " by {
      assert forall k :: 0 <= k < 7 ==> Lower(h)[k] == LowerChar(h[..7][k]);
    }
    assert h[..7] == "Bearer ";
    assert h[7..] == [];
    assert FirstField([]) == [];
  }

  /** After the prefix the dependency keeps one field, `/me` keeps the whole rest. */
  lemma TokenWithSpaceSplitsDifferently(s: Settings)
    ensures var req := Request(Some("Bearer a b"), map[]);
      MeToken(req) == Some("a b") && SelectToken(req.authorization, RequestCookie(req, s.cookieName)) == Some("a")
  {
    var h := "Bearer a b";
    assert Lower(h)[..7] == "bearer " by {
      assert forall k :: 0 <= k < 7 ==> Lower(h)[k] == LowerChar(h[..7][k]);
    }
    assert h[7..] == "a b";
    HeaderTokenExamples();
  }

  /** `/me` reads the cookie named `access_token` whatever `COOKIE_NAME` says. */
  lemma RenamedCookieOnlyForDependency(s: Settings)
    requires s.cookieName != "access_token"
    ensures var req := Request(None, map[s.cookieName := "c"]);
      MeToken(req).None? && SelectToken(req.authorization, RequestCookie(req, s.cookieName)) == Some("c")
  {
  }

  // ---------------------------------------------------------------------------
  // The whole flow

  /**
   * Register, log in with the same email and password, and present the cookie
   * to `/me` before it expires: `/me` answers with the new user's id and email.
   */
  lemma RegisterLoginMe(users: seq<User>, nextId: int, email: string, password: string,
                        h: Hasher, jwt: Jwt, s: Settings, issued: int, later: int)
    requires h.Sound() && jwt.Sound()
    requires UniqueKeys(users) && forall v :: v in users ==> v.id < nextId
    requires FindByEmail(users, email).None? && email != []
    requires issued <= later <= issued + Lifetime(s)
    requires var u := NewLocalUser(nextId, email, HashPassword(h, password));
      LoginToken(jwt, s, u, issued) != []
    ensures var u := NewLocalUser(nextId, email, HashPassword(h, password));
      var users' := users + [u];
      && Authenticate(users', LoginRequest(Some(email), None, password), h) == Ok(u)
      && ReadMe(Request(None, map["access_token" := LoginToken(jwt, s, u, issued)]), users', jwt, s, later)
         == Ok(MeResponse(nextId, email))
  {
    var u := NewLocalUser(nextId, email, HashPassword(h, password));
    var users' := users + [u];
    assert UniqueKeys(users') by {
      forall i, j | 0 <= i < j < |users'|
        ensures users'[i].id != users'[j].id && users'[i].email != users'[j].email
        ensures users'[i].username.Some? ==> users'[i].username != users'[j].username
      {
        if j == |users| {
          assert users'[i] in users;
        }
      }
    }
    FindByEmailUnique(users', u);
    FindByIdUnique(users', u);
    var claims := map["sub" := Str(IntToString(u.id))];
    AccessTokenDecodes(jwt, s, claims, issued, later);
    ParseIntOfIntToString(u.id);
    assert WithExpiry(claims, issued + Lifetime(s))["sub"] == Str(IntToString(u.id));
  }
}
