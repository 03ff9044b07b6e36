/**
 * The user schemas (backend/app/schemas/user.py): validation of
 * `UserCreate`, and `UserPublic`, the view of a user without credentials.
 */
module UserSchemas {
  import opened Wrappers
  import opened Models
  import opened EmailStr

  /** A JSON body: its string-valued keys (`null` reads as absent). */
  type Body = map<string, string>

  /** `UserCreate` once validated. */
  datatype UserCreate = UserCreate(name: Option<string>, email: Option<string>, username: Option<string>, password: string)

  /** `UserPublic`. */
  datatype UserPublic = UserPublic(id: int, name: Option<string>, email: Option<string>, username: Option<string>)

  function Field(body: Body, key: string): Option<string> {
    if key in body then Some(body[key]) else None
  }

  /** Python truthiness of an optional string. */
  predicate Truthy(o: Option<string>) {
    o.Some? && o.value != []
  }

  /** The fields whose own constraints fail, in declaration order. */
  function FieldErrors(body: Body, normalize: Normalizer): seq<string> {
    (if "email" in body && normalize(body["email"]).None? then ["email"] else [])
    + (if "username" in body && |body["username"]| < 3 then ["username"] else [])
    + (if "password" !in body || !(6 <= |body["password"]| <= 72) then ["password"] else [])
  }

  /**
   * Validation of `UserCreate`: the field constraints (an `email`, when given,
   * passes `EmailStr` and is replaced by the normalised address; a
   * `username`, when given, has three characters; `password` has 6 to 72),
   * then, only if they hold, the model validator's demand for an email or a
   * username.
   */
  function ParseUserCreate(body: Body, normalize: Normalizer): (r: Result<UserCreate, seq<string>>)
    ensures r.Ok? ==> FieldErrors(body, normalize) == [] && (Truthy(r.value.email) || Truthy(r.value.username))
    ensures r.Ok? ==> 6 <= |r.value.password| <= 72 && (r.value.username.Some? ==> |r.value.username.value| >= 3)
    ensures r.Err? ==> r.error == FieldErrors(body, normalize) != [] || (FieldErrors(body, normalize) == [] && r.error == ["body"])
  {
    var errors := FieldErrors(body, normalize);
    var email := OptionalField(body, "email", normalize);
    if errors != [] then Err(errors)
    else if !Truthy(email) && !Truthy(Field(body, "username")) then Err(["body"])
    else Ok(UserCreate(Field(body, "name"), email, Field(body, "username"), body["password"]))
  }

  /** `UserPublic.model_validate(user)`: the public columns of the row. */
  function ToPublic(u: User): (p: UserPublic)
    ensures p.id == u.id && p.email == Some(u.email)
  {
    UserPublic(u.id, u.name, Some(u.email), u.username)
  }

  // ---------------------------------------------------------------------------
  // Properties

  /** A body is accepted exactly when every field constraint holds and an email or a username is given. */
  lemma AcceptedIff(body: Body, normalize: Normalizer)
    ensures var r := ParseUserCreate(body, normalize);
      && (r.Ok? <==>
            && ("email" in body ==> normalize(body["email"]).Some?)
            && ("username" in body ==> |body["username"]| >= 3)
            && "password" in body && 6 <= |body["password"]| <= 72
            && (Truthy(OptionalField(body, "email", normalize)) || Truthy(Field(body, "username"))))
      && (r.Ok? ==> r.value == UserCreate(Field(body, "name"), OptionalField(body, "email", normalize), Field(body, "username"), body["password"]))
  {
  }

  /** Each field is reported exactly when its own constraint fails. */
  lemma FieldErrorsExact(body: Body, normalize: Normalizer)
    ensures "email" in FieldErrors(body, normalize) <==> "email" in body && normalize(body["email"]).None?
    ensures "username" in FieldErrors(body, normalize) <==> "username" in body && |body["username"]| < 3
    ensures "password" in FieldErrors(body, normalize) <==> "password" !in body || !(6 <= |body["password"]| <= 72)
  {
  }

  /**
   * "Either email or username must be provided." is raised only once the
   * fields are valid, and then exactly when neither identifier is given.
   */
  lemma IdentifierRequired(body: Body, normalize: Normalizer)
    ensures ParseUserCreate(body, normalize) == Err(["body"]) <==>
      FieldErrors(body, normalize) == [] && !Truthy(OptionalField(body, "email", normalize)) && !Truthy(Field(body, "username"))
  {
    var e := FieldErrors(body, normalize);
    if e != [] {
      assert e[0] in ["email", "username", "password"];
    }
  }

  /** An accepted user has an identifier and a password of 6 to 72 characters. */
  lemma AcceptedHasIdentifier(body: Body, normalize: Normalizer)
    ensures var r := ParseUserCreate(body, normalize);
      r.Ok? ==>
        && (Truthy(r.value.email) || (r.value.username.Some? && |r.value.username.value| >= 3))
        && 6 <= |r.value.password| <= 72
        && (r.value.email.Some? ==> "email" in body && r.value.email == normalize(body["email"]))
  {
  }

  /**
   * The public view shows the id, name, email and username, and nothing of
   * the credentials: rows that differ only in password hash, provider or
   * theme look the same.
   */
  lemma PublicHidesCredentials(u: User, hashedPassword: string, provider: string, providerId: Option<string>, theme: string)
    ensures var p := ToPublic(u);
      p.id == u.id && p.name == u.name && p.email == Some(u.email) && p.username == u.username
    ensures ToPublic(u) == ToPublic(u.(hashedPassword := hashedPassword, provider := provider, providerId := providerId, theme := theme))
  {
  }
}
