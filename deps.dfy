/**
 * The shared authentication dependency `get_current_user_from_cookie`
 * (backend/app/api/deps.py): pick a token from the `Authorization: Bearer`
 * header or the session cookie, decode it, and look the subject up.
 */
module Deps {
  import opened Wrappers
  import opened Text
  import opened Config
  import opened Security
  import opened Models

  /** The parts of an incoming request the dependency reads. */
  datatype Request = Request(authorization: Option<string>, cookies: map<string, string>)

  const AuthRequired := HttpError(401, "Authentication required")
  const TokenExpired := HttpError(401, "Token expired")
  const InvalidOrExpired := HttpError(401, "Invalid or expired token")
  const UserNotFound := HttpError(401, "User not found")

  /** `request.cookies.get(name)`. */
  function RequestCookie(req: Request, name: string): Option<string>
  {
    if name in req.cookies then Some(req.cookies[name]) else None
  }

  /** The text up to the first space: the second field of `split(" ")` once the prefix is gone. */
  function FirstField(s: string): string
  {
    s[..IndexOf(s, ' ')]
  }

  /**
   * `auth_header.split(" ")[1]` when the header is truthy and starts with
   * `"Bearer "` (case-sensitively); `None` when the header supplies nothing.
   */
  function HeaderToken(authorization: Option<string>): (t: Option<string>)
    ensures t.Some? <==> authorization.Some? && StartsWith(authorization.value, "Bearer ")
    ensures t.Some? ==> t.value == FirstField(authorization.value[7..])
  {
    if authorization.Some? && authorization.value != [] && StartsWith(authorization.value, "Bearer ") then
      SecondFieldAfterBearer(authorization.value);
      Some(SplitOn(authorization.value, ' ')[1])
    else None
  }

  /** After a `"Bearer "` prefix, `split(" ")[1]` is the text up to the next space. */
  lemma SecondFieldAfterBearer(h: string)
    requires StartsWith(h, "Bearer ")
    ensures |SplitOn(h, ' ')| >= 2 && SplitOn(h, ' ')[1] == FirstField(h[7..])
  {
    assert h[..7] == "Bearer ";
    assert h[6] == h[..7][6];
    assert h[..6] == h[..7][..6] == "Bearer";
    IndexOfAt(h, ' ', 6);
    assert h[6 + 1..] == h[7..];
  }

  /** The first occurrence of `c` is at `k` when `s[k]` is `c` and none comes before. */
  lemma {:induction false} IndexOfAt(s: string, c: char, k: nat)
    requires k < |s| && s[k] == c && c !in s[..k]
    ensures IndexOf(s, c) == k
  {
    if k > 0 {
      assert s[0] == s[..k][0];
      assert s[1..][k - 1] == c;
      assert s[1..][..k - 1] == s[..k][1..];
      IndexOfAt(s[1..], c, k - 1);
    }
  }

  /**
   * The token the dependency uses: the header's when it is non-empty,
   * otherwise the cookie's when that is non-empty, otherwise none.
   */
  function SelectToken(authorization: Option<string>, cookie: Option<string>): (t: Option<string>)
    ensures t.Some? ==> t.value != []
    ensures t.Some? ==> t == HeaderToken(authorization) || t == cookie
  {
    var fromHeader := HeaderToken(authorization);
    if fromHeader.Some? && fromHeader.value != [] then fromHeader
    else if cookie.Some? && cookie.value != [] then cookie
    else None
  }

  /**
   * `int(payload.get("sub"))`, `None` standing for the ValueError (or, in
   * `read_me`, the TypeError of a missing subject).
   */
  function SubjectId(claims: Claims): (r: Option<int>)
    ensures r.Some? ==> "sub" in claims
    ensures "sub" in claims && claims["sub"].Num? ==> r == Some(claims["sub"].n)
    ensures "sub" in claims && claims["sub"].Str? ==> r == ParseInt(claims["sub"].text)
  {
    if "sub" !in claims then None
    else match claims["sub"]
      case Str(s) => ParseInt(s)
      case Num(n) => Some(n)
  }

  /** `get_current_user_from_cookie(request, db)` at clock reading `now`. */
  function GetCurrentUserFromCookie(req: Request, users: seq<User>, jwt: Jwt, s: Settings, now: int)
    : (r: Result<User, HttpError>)
    ensures r.Err? ==> r.error.status == 401
    ensures var tok := SelectToken(req.authorization, RequestCookie(req, s.cookieName));
      && (r == Err(AuthRequired) <==> tok.None?)
      && (tok.Some? ==>
            var d := jwt.decode(tok.value, s.jwtSecretKey, s.jwtAlgorithm, now);
            && (r == Err(TokenExpired) <==> d.Expired?)
            && (r == Err(InvalidOrExpired) <==> d.Invalid? || (d.Valid? && SubjectId(d.claims).None?))
            && (r.Ok? ==> d.Valid? && SubjectId(d.claims) == Some(r.value.id))
            && (d.Valid? && SubjectId(d.claims).Some? ==>
                  var id := SubjectId(d.claims).value;
                  && (FindById(users, id).Some? ==> r == Ok(FindById(users, id).value))
                  && (FindById(users, id).None? <==> r == Err(UserNotFound))))
    ensures r.Ok? ==> r.value in users
    ensures r == Err(UserNotFound) ==> forall u :: u in users ==> u.id != SubjectOf(req, jwt, s, now)
  {
    var tok := SelectToken(req.authorization, RequestCookie(req, s.cookieName));
    if tok.None? then Err(AuthRequired)
    else
      match jwt.decode(tok.value, s.jwtSecretKey, s.jwtAlgorithm, now)
      case Expired => Err(TokenExpired)
      case Invalid => Err(InvalidOrExpired)
      case Valid(claims) =>
        match SubjectId(claims)
        case None => Err(InvalidOrExpired)
        case Some(id) =>
          match FindById(users, id)
          case None => Err(UserNotFound)
          case Some(u) => Ok(u)
  }

  /** The decoded subject id, or 0 when the request carries none (only read when there is one). */
  function SubjectOf(req: Request, jwt: Jwt, s: Settings, now: int): int
  {
    var tok := SelectToken(req.authorization, RequestCookie(req, s.cookieName));
    if tok.None? then 0
    else match jwt.decode(tok.value, s.jwtSecretKey, s.jwtAlgorithm, now)
      case Valid(claims) => SubjectId(claims).GetOr(0)
      case _ => 0
  }

  // ---------------------------------------------------------------------------
  // Token source

  /** A usable `Bearer ` header decides the outcome: the cookie is not consulted. */
  lemma BearerHeaderWins(req: Request, cookies: map<string, string>, users: seq<User>, jwt: Jwt, s: Settings, now: int)
    requires HeaderToken(req.authorization).Some? && HeaderToken(req.authorization).value != []
    ensures GetCurrentUserFromCookie(req, users, jwt, s, now)
         == GetCurrentUserFromCookie(req.(cookies := cookies), users, jwt, s, now)
  {
  }

  /** The header token is the second space-separated field. */
  lemma HeaderTokenExamples()
    ensures HeaderToken(Some("Bearer a b")) == Some("a")
  {
    var h := "Bearer a b";
    assert h[..7] == "Bearer ";
    assert h[7..] == "a b";
    IndexOfAt("a b", ' ', 1);
    assert FirstField("a b") == "a";
  }

  /** A bare "Bearer " yields the empty token. */
  lemma HeaderTokenEmpty()
    ensures HeaderToken(Some("Bearer ")) == Some("")
  {
    assert "Bearer "[..7] == "Bearer ";
    assert FirstField([]) == [];
  }

  /** The scheme is matched case-sensitively. */
  lemma HeaderTokenCaseSensitive()
    ensures HeaderToken(Some("bearer a")) == None
  {
    assert "bearer a"[..7][0] != "Bearer "[0];
  }

  /** Without a usable header token the cookie's value is the token, when non-empty. */
  lemma CookieFallback(req: Request, s: Settings)
    requires HeaderToken(req.authorization).None? || HeaderToken(req.authorization).value == []
    ensures SelectToken(req.authorization, RequestCookie(req, s.cookieName))
         == (if s.cookieName in req.cookies && req.cookies[s.cookieName] != []
             then Some(req.cookies[s.cookieName]) else None)
  {
  }

  /** With no token from either source the decoder and the table play no part. */
  lemma NoTokenNoDecode(req: Request, users1: seq<User>, users2: seq<User>, jwt1: Jwt, jwt2: Jwt, s: Settings, now1: int, now2: int)
    requires SelectToken(req.authorization, RequestCookie(req, s.cookieName)).None?
    ensures GetCurrentUserFromCookie(req, users1, jwt1, s, now1) == Err(AuthRequired)
    ensures GetCurrentUserFromCookie(req, users1, jwt1, s, now1) == GetCurrentUserFromCookie(req, users2, jwt2, s, now2)
  {
  }

  /**
   * A token minted for an existing user and presented as a bearer header
   * resolves to that user until it expires, and to "Token expired" after.
   */
  lemma MintedTokenResolves(req: Request, users: seq<User>, jwt: Jwt, s: Settings, u: User, issued: int, now: int)
    requires jwt.Sound() && UniqueKeys(users) && u in users
    requires var token := CreateAccessToken(jwt, s, map["sub" := Str(IntToString(u.id))], issued);
      token != [] && ' ' !in token && req.authorization == Some("Bearer " + token)
    ensures now <= issued + Lifetime(s) ==> GetCurrentUserFromCookie(req, users, jwt, s, now) == Ok(u)
    ensures now > issued + Lifetime(s) ==> GetCurrentUserFromCookie(req, users, jwt, s, now) == Err(TokenExpired)
  {
    var claims := map["sub" := Str(IntToString(u.id))];
    var token := CreateAccessToken(jwt, s, claims, issued);
    var h := "Bearer " + token;
    assert h[7..] == token;
    assert h[..7] == "Bearer ";
    assert IndexOf(token, ' ') == |token|;
    assert FirstField(token) == token[..|token|] == token;
    assert HeaderToken(req.authorization) == Some(token);
    AccessTokenDecodes(jwt, s, claims, issued, now);
    if now <= issued + Lifetime(s) {
      var c := WithExpiry(claims, issued + Lifetime(s));
      assert c["sub"] == Str(IntToString(u.id));
      ParseIntOfIntToString(u.id);
      FindByIdUnique(users, u);
    }
  }
}
