/**
 * The theme preference routes (backend/app/api/users.py): read the current
 * user's `theme`, and overwrite it with "light" or "dark". The current user
 * comes from `get_current_user` in `app.api.auth`, which is not part of this
 * model: the routes receive the id of a row that exists.
 */
module Users {
  import opened Wrappers
  import opened Models

  const InvalidTheme := HttpError(400, "Invalid theme value")

  /** The two accepted values of `theme`. */
  predicate IsTheme(theme: string) {
    theme == "light" || theme == "dark"
  }

  /** The body of both routes: `{"theme": …}`. */
  datatype ThemeResponse = ThemeResponse(theme: string)

  /** `get_user_theme`: the stored preference of the current user, light or dark whenever the row's is. */
  function GetUserTheme(u: User): (r: ThemeResponse)
    ensures r.theme == u.theme
    ensures IsTheme(u.theme) ==> IsTheme(r.theme)
  {
    ThemeResponse(u.theme)
  }

  /** The table with the row of `id` carrying `theme`. */
  function SetTheme(users: seq<User>, id: int, theme: string): (r: seq<User>)
    ensures |r| == |users|
    ensures forall i :: 0 <= i < |users| && users[i].id != id ==> r[i] == users[i]
    ensures forall i :: 0 <= i < |users| && users[i].id == id ==> r[i] == users[i].(theme := theme)
  {
    if users == [] then []
    else [if users[0].id == id then users[0].(theme := theme) else users[0]] + SetTheme(users[1..], id, theme)
  }

  /** The answer of `update_user_theme` and the table it leaves. */
  datatype ThemeOutcome = ThemeOutcome(result: Result<ThemeResponse, HttpError>, users: seq<User>)

  /** `update_user_theme` for the user with primary key `id`. */
  function UpdateSpec(users: seq<User>, id: int, theme: string): (o: ThemeOutcome)
    ensures o.result.Ok? <==> IsTheme(theme)
    ensures o.result.Ok? ==> o.result.value == ThemeResponse(theme)
    ensures o.result.Err? ==> o.result.error == InvalidTheme && o.users == users
    ensures |o.users| == |users|
    ensures forall i :: 0 <= i < |users| ==>
      && o.users[i].id == users[i].id && o.users[i].email == users[i].email && o.users[i].username == users[i].username
    ensures ThemesValid(users) ==> ThemesValid(o.users)
  {
    if !IsTheme(theme) then ThemeOutcome(Err(InvalidTheme), users)
    else ThemeOutcome(Ok(ThemeResponse(theme)), SetTheme(users, id, theme))
  }

  /** Every stored preference is one of the two accepted values. */
  ghost predicate ThemesValid(users: seq<User>) {
    forall i :: 0 <= i < |users| ==> IsTheme(users[i].theme)
  }

  // ---------------------------------------------------------------------------
  // Properties

  /**
   * An unknown theme is refused with 400 and the table is left as it was; an
   * accepted one is stored on the caller's row, echoed back, and no other
   * row changes.
   */
  lemma UpdateOutcome(users: seq<User>, id: int, theme: string)
    requires UniqueKeys(users) && FindById(users, id).Some?
    ensures var o := UpdateSpec(users, id, theme);
      && (o.result.Ok? <==> IsTheme(theme))
      && (o.result.Err? ==> o.result.error == InvalidTheme && o.users == users)
      && (o.result.Ok? ==>
            && o.result.value == ThemeResponse(theme)
            && FindById(o.users, id) == Some(FindById(users, id).value.(theme := theme))
            && |o.users| == |users|
            && forall i :: 0 <= i < |users| && users[i].id != id ==> o.users[i] == users[i])
  {
    if IsTheme(theme) {
      FindByIdSetTheme(users, id, theme);
    }
  }

  /** Looking the caller up after the write finds their row with the new theme. */
  lemma {:induction false} FindByIdSetTheme(users: seq<User>, id: int, theme: string)
    requires FindById(users, id).Some?
    ensures FindById(SetTheme(users, id, theme), id) == Some(FindById(users, id).value.(theme := theme))
    decreases |users|
  {
    if users[0].id != id {
      FindByIdSetTheme(users[1..], id, theme);
    }
  }

  /** Reading the theme after a successful update returns what the update returned. */
  lemma UpdateThenGet(users: seq<User>, id: int, theme: string)
    requires UniqueKeys(users) && FindById(users, id).Some?
    ensures var o := UpdateSpec(users, id, theme);
      o.result.Ok? ==> GetUserTheme(FindById(o.users, id).value) == o.result.value
  {
    UpdateOutcome(users, id, theme);
  }

  /** Repeating an update answers the same and changes nothing further. */
  lemma {:induction false} UpdateIdempotent(users: seq<User>, id: int, theme: string)
    ensures var o := UpdateSpec(users, id, theme);
      UpdateSpec(o.users, id, theme) == o
  {
    if IsTheme(theme) {
      var once := SetTheme(users, id, theme);
      var twice := SetTheme(once, id, theme);
      assert twice == once by {
        forall i | 0 <= i < |users| ensures twice[i] == once[i] {
          assert once[i].id == users[i].id;
        }
      }
    }
  }

  /** Updates keep every key of every row, so keep them unique, and keep every stored theme valid. */
  lemma UpdateKeepsInvariants(users: seq<User>, id: int, theme: string)
    requires UniqueKeys(users)
    ensures var o := UpdateSpec(users, id, theme);
      && UniqueKeys(o.users)
      && (forall i :: 0 <= i < |users| ==> o.users[i].id == users[i].id)
      && (ThemesValid(users) ==> ThemesValid(o.users))
  {
    var o := UpdateSpec(users, id, theme);
    assert forall i :: 0 <= i < |users| ==>
      o.users[i].id == users[i].id && o.users[i].email == users[i].email && o.users[i].username == users[i].username;
  }

  /** A freshly registered user starts on a valid theme. */
  lemma NewUserThemeValid(users: seq<User>, id: int, email: string, hashedPassword: string)
    requires ThemesValid(users)
    ensures ThemesValid(users + [NewLocalUser(id, email, hashedPassword)])
    ensures GetUserTheme(NewLocalUser(id, email, hashedPassword)) == ThemeResponse("light")
  {
  }

  // ---------------------------------------------------------------------------
  // The route

  /**
   * `update_user_theme`: validate, assign the column on the caller's row,
   * commit, and answer with the refreshed row's theme.
   */
  method UpdateUserTheme(store: UserStore, id: int, theme: string) returns (r: Result<ThemeResponse, HttpError>)
    requires store.Valid() && FindById(store.users, id).Some?
    modifies store
    ensures store.Valid()
    ensures var o := UpdateSpec(old(store.users), id, theme);
      r == o.result && store.users == o.users && store.nextId == old(store.nextId)
  {
    if !IsTheme(theme) {
      return Err(InvalidTheme);
    }
    UpdateOutcome(store.users, id, theme);
    UpdateKeepsInvariants(store.users, id, theme);
    store.users := SetTheme(store.users, id, theme);
    var refreshed := FindById(store.users, id).value;
    r := Ok(GetUserTheme(refreshed));
  }
}
