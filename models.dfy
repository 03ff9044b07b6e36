/** The `users` table (backend/app/db/models.py). */
module Models {
  import opened Wrappers

  /**
   * One row of `users`. `email` and `hashed_password` are NOT NULL, the other
   * optional columns are `Option`s. `created_at` is left out.
   */
  datatype User = User(
    id: int,
    name: Option<string>,
    email: string,
    username: Option<string>,
    hashedPassword: string,
    provider: string,
    providerId: Option<string>,
    theme: string)

  /** A row built from an email and a hash, every other column at its declared default. */
  function NewLocalUser(id: int, email: string, hashedPassword: string): (u: User)
    ensures u.id == id && u.email == email && u.hashedPassword == hashedPassword
    ensures u.provider == "local" && u.theme == "light"
    ensures u.name.None? && u.username.None? && u.providerId.None?
  {
    User(id, None, email, None, hashedPassword, "local", None, "light")
  }

  /** The primary key and the two UNIQUE columns (a NULL username never clashes). */
  ghost predicate UniqueKeys(users: seq<User>) {
    forall i, j :: 0 <= i < j < |users| ==>
      && users[i].id != users[j].id
      && users[i].email != users[j].email
      && (users[i].username.Some? ==> users[i].username != users[j].username)
  }

  /** `db.get(User, id)`. */
  function FindById(users: seq<User>, id: int): (r: Option<User>)
    ensures r.Some? ==> r.value in users && r.value.id == id
    ensures r.None? ==> forall u :: u in users ==> u.id != id
  {
    if users == [] then None
    else if users[0].id == id then Some(users[0])
    else FindById(users[1..], id)
  }

  /** `query(User).filter(User.email == email).first()`. */
  function FindByEmail(users: seq<User>, email: string): (r: Option<User>)
    ensures r.Some? ==> r.value in users && r.value.email == email
    ensures r.None? ==> forall u :: u in users ==> u.email != email
  {
    if users == [] then None
    else if users[0].email == email then Some(users[0])
    else FindByEmail(users[1..], email)
  }

  /** `query(User).filter(User.username == username).first()`. */
  function FindByUsername(users: seq<User>, username: string): (r: Option<User>)
    ensures r.Some? ==> r.value in users && r.value.username == Some(username)
    ensures r.None? ==> forall u :: u in users ==> u.username != Some(username)
  {
    if users == [] then None
    else if users[0].username == Some(username) then Some(users[0])
    else FindByUsername(users[1..], username)
  }

  /** The `users` table: its rows and the next autoincrement id. */
  class UserStore {
    var users: seq<User>
    var nextId: int

    ghost predicate Valid()
      reads this
    {
      && UniqueKeys(users)
      && 1 <= nextId
      && forall i :: 0 <= i < |users| ==> 1 <= users[i].id < nextId
    }

    constructor ()
      ensures Valid() && users == [] && nextId == 1
    {
      users := [];
      nextId := 1;
    }
  }

  /** Replacing the row with a given id by one with the same keys keeps them unique. */
  lemma UniqueKeysReplace(users: seq<User>, k: nat, u: User)
    requires UniqueKeys(users) && k < |users|
    requires u.id == users[k].id && u.email == users[k].email && u.username == users[k].username
    ensures UniqueKeys(users[k := u])
  {
  }

  /** In a table with unique ids, looking up a row's id finds that row. */
  lemma {:induction false} FindByIdUnique(users: seq<User>, u: User)
    requires UniqueKeys(users) && u in users
    ensures FindById(users, u.id) == Some(u)
  {
    var k :| 0 <= k < |users| && users[k] == u;
    if k != 0 {
      assert users[1..][k - 1] == u;
      FindByIdUnique(users[1..], u);
    }
  }

  /** In a table with unique emails, looking up a row's email finds that row. */
  lemma {:induction false} FindByEmailUnique(users: seq<User>, u: User)
    requires UniqueKeys(users) && u in users
    ensures FindByEmail(users, u.email) == Some(u)
  {
    var k :| 0 <= k < |users| && users[k] == u;
    if k != 0 {
      assert users[1..][k - 1] == u;
      FindByEmailUnique(users[1..], u);
    }
  }

  /** In a table with unique usernames, looking up a row's username finds that row. */
  lemma {:induction false} FindByUsernameUnique(users: seq<User>, u: User)
    requires UniqueKeys(users) && u in users && u.username.Some?
    ensures FindByUsername(users, u.username.value) == Some(u)
  {
    var k :| 0 <= k < |users| && users[k] == u;
    if k != 0 {
      assert users[1..][k - 1] == u;
      FindByUsernameUnique(users[1..], u);
    }
  }
}
