/**
 * The sign-in form (frontend/src/components/auth/LoginForm.tsx): the zod
 * schema and the body posted to `/auth/login`.
 */
module LoginForm {
  import opened Wrappers
  import AuthRouter
  import EmailStr
  import RegisterForm

  /** The two inputs of the form. */
  datatype LoginFields = LoginFields(identifier: string, password: string)

  /** The issues the schema can raise. */
  datatype Issue = IdentifierRequired | PasswordRequired

  /** The field an issue is reported on. */
  function Path(i: Issue): string {
    match i
    case IdentifierRequired => "identifier"
    case PasswordRequired => "password"
  }

  /** The message an issue carries. */
  function Message(i: Issue): string {
    match i
    case IdentifierRequired => "Email or username required"
    case PasswordRequired => "Password required"
  }

  /** `LoginSchema`: the two length checks in field order. */
  function Validate(f: LoginFields): (r: seq<Issue>)
    ensures |r| <= 2 && forall i, j :: 0 <= i < j < |r| ==> r[i] != r[j]
    ensures r != [] && r[0] == IdentifierRequired <==> |f.identifier| < 3
  {
    (if |f.identifier| < 3 then [IdentifierRequired] else [])
    + (if |f.password| < 6 then [PasswordRequired] else [])
  }

  /** The body `onSubmit` posts: `{email, password}` or `{username, password}`. */
  function Body(f: LoginFields): (b: AuthRouter.Body)
    ensures "password" in b && b["password"] == f.password && "name" !in b
    ensures ("email" in b) != ("username" in b)
  {
    if RegisterForm.LooksLikeEmail(f.identifier) then map["email" := f.identifier, "password" := f.password]
    else map["username" := f.identifier, "password" := f.password]
  }

  // ---------------------------------------------------------------------------
  // Properties

  /** The form submits exactly when the identifier has three characters and the password six. */
  lemma ValidIff(f: LoginFields)
    ensures Validate(f) == [] <==> |f.identifier| >= 3 && |f.password| >= 6
    ensures IdentifierRequired in Validate(f) <==> |f.identifier| < 3
    ensures PasswordRequired in Validate(f) <==> |f.password| < 6
  {
  }

  /** An identifier with "@" is sent as `email`, any other as `username`; nothing else is sent but the password. */
  lemma BodyRouting(f: LoginFields)
    ensures var b := Body(f);
      && b.Keys == {if RegisterForm.LooksLikeEmail(f.identifier) then "email" else "username", "password"}
      && b["password"] == f.password
      && (RegisterForm.LooksLikeEmail(f.identifier) ==> b["email"] == f.identifier)
      && (!RegisterForm.LooksLikeEmail(f.identifier) ==> b["username"] == f.identifier)
  {
  }

  /**
   * What the backend's `LoginRequest` makes of a body the form accepted: a
   * username is always taken; an email is taken, as the normalised address,
   * when `EmailStr` accepts it, otherwise refused with an issue on `email`.
   */
  lemma BackendAcceptsBody(f: LoginFields, normalize: EmailStr.Normalizer)
    requires Validate(f) == []
    ensures var r := AuthRouter.ParseLogin(Body(f), normalize);
      && (!RegisterForm.LooksLikeEmail(f.identifier) ==> r == Ok(AuthRouter.LoginRequest(None, Some(f.identifier), f.password)))
      && (RegisterForm.LooksLikeEmail(f.identifier) && normalize(f.identifier).Some? && normalize(f.identifier).value != [] ==>
            r == Ok(AuthRouter.LoginRequest(normalize(f.identifier), None, f.password)))
      && (RegisterForm.LooksLikeEmail(f.identifier) && normalize(f.identifier).None? ==> r.Err? && "email" in r.error)
  {
    ValidIff(f);
    BodyRouting(f);
  }
}
