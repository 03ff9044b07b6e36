/**
 * `GET /trades/` (backend/app/api/trades_router.py): greet the authenticated
 * user and list the fixed sample trades.
 */
module TradesRouter {
  import opened Wrappers
  import opened Config
  import opened Security
  import opened Models
  import opened Deps

  /** One sample trade; the price is a decimal value. */
  datatype Trade = Trade(symbol: string, kind: string, quantity: int, price: real)

  /** `sample_trades`. */
  const SampleTrades := [Trade("AAPL", "buy", 10, 182.33), Trade("TSLA", "sell", 5, 214.77)]

  /** The route's body: the greeting and the trades. */
  datatype TradesResponse = TradesResponse(message: string, trades: seq<Trade>)

  /** Python truthiness of an optional string. */
  predicate Truthy(o: Option<string>) {
    o.Some? && o.value != []
  }

  /** Reference definition: the first truthy candidate, else the fallback. */
  function FirstTruthy(candidates: seq<Option<string>>, fallback: string): (r: string)
    ensures fallback != [] ==> r != []
    ensures r == fallback || exists i :: 0 <= i < |candidates| && Truthy(candidates[i]) && r == candidates[i].value
  {
    if candidates == [] then fallback
    else if Truthy(candidates[0]) then candidates[0].value
    else FirstTruthy(candidates[1..], fallback)
  }

  /** `name or username or email or "User"`. */
  function DisplayName(u: User): (r: string)
    ensures r != []
    ensures Some(r) == u.name || Some(r) == u.username || r == u.email || r == "User"
  {
    if Truthy(u.name) then u.name.value
    else if Truthy(u.username) then u.username.value
    else if u.email != [] then u.email
    else "User"
  }

  /** `f"Welcome back, {user_display}!"`. */
  function Greeting(u: User): string {
    "Welcome back, " + DisplayName(u) + "!"
  }

  /** `get_trades`, after `get_current_user_from_cookie` has run on the request. */
  function GetTrades(req: Request, users: seq<User>, jwt: Jwt, s: Settings, now: int): (r: Result<TradesResponse, HttpError>)
    ensures r.Err? <==> GetCurrentUserFromCookie(req, users, jwt, s, now).Err?
    ensures r.Ok? ==> r.value.trades == SampleTrades && exists u :: u in users && r.value.message == Greeting(u)
  {
    match GetCurrentUserFromCookie(req, users, jwt, s, now)
    case Err(e) => Err(e)
    case Ok(u) => Ok(TradesResponse(Greeting(u), SampleTrades))
  }

  // ---------------------------------------------------------------------------
  // Properties

  /** The display name is the first of name, username and email that is non-empty, else "User". */
  lemma DisplayNameIsFirstTruthy(u: User)
    ensures DisplayName(u) == FirstTruthy([u.name, u.username, Some(u.email)], "User")
    ensures DisplayName(u) != []
    ensures Truthy(u.name) ==> DisplayName(u) == u.name.value
    ensures !Truthy(u.name) && Truthy(u.username) ==> DisplayName(u) == u.username.value
  {
    assert [u.name, u.username, Some(u.email)][1..] == [u.username, Some(u.email)];
    assert [u.username, Some(u.email)][1..] == [Some(u.email)];
    assert [Some(u.email)][1..] == [];
    if !Truthy(u.name) && !Truthy(u.username) {
      assert FirstTruthy([Some(u.email)], "User") == if u.email != [] then u.email else FirstTruthy([], "User");
      assert "User"[0] == 'U';
    }
  }

  /** An unauthenticated request gets the dependency's 401 unchanged, and nothing else. */
  lemma TradesNeedAuth(req: Request, users: seq<User>, jwt: Jwt, s: Settings, now: int)
    ensures var r := GetTrades(req, users, jwt, s, now);
      var a := GetCurrentUserFromCookie(req, users, jwt, s, now);
      && (r.Err? <==> a.Err?)
      && (r.Err? ==> r.error == a.error && r.error.status == 401)
  {
  }

  /** Every authenticated user is greeted by name and sees the same two sample trades. */
  lemma TradesGreetUser(req: Request, users: seq<User>, jwt: Jwt, s: Settings, now: int)
    ensures var r := GetTrades(req, users, jwt, s, now);
      var a := GetCurrentUserFromCookie(req, users, jwt, s, now);
      r.Ok? ==>
        && a.Ok? && a.value in users
        && r.value.message == "Welcome back, " + DisplayName(a.value) + "!"
        && r.value.trades == SampleTrades && |r.value.trades| == 2
  {
  }

  /** The trades do not depend on who asks. */
  lemma TradesIndependentOfUser(req1: Request, req2: Request, users: seq<User>, jwt: Jwt, s: Settings, now: int)
    requires GetTrades(req1, users, jwt, s, now).Ok? && GetTrades(req2, users, jwt, s, now).Ok?
    ensures GetTrades(req1, users, jwt, s, now).value.trades == GetTrades(req2, users, jwt, s, now).value.trades
  {
  }
}
