/**
 * The sign-up form (frontend/src/components/auth/RegisterForm.tsx): the zod
 * schema, the live password-mismatch flag, and the body posted on submit.
 * The body reaches the backend's `RegisterRequest` through the `/api/register`
 * proxy, taken here to forward it unchanged.
 */
module RegisterForm {
  import opened Wrappers
  import AuthRouter
  import EmailStr

  /** The four inputs of the form. */
  datatype RegisterFields = RegisterFields(name: string, emailOrUsername: string, password: string, confirm: string)

  /** The issues the schema can raise. */
  datatype Issue = NameRequired | IdentifierRequired | PasswordTooShort | ConfirmRequired | Mismatch

  /** The field an issue is reported on. */
  function Path(i: Issue): string {
    match i
    case NameRequired => "name"
    case IdentifierRequired => "emailOrUsername"
    case PasswordTooShort => "password"
    case ConfirmRequired | Mismatch => "confirm"
  }

  /** The message an issue carries. */
  function Message(i: Issue): string {
    match i
    case NameRequired => "Name required"
    case IdentifierRequired => "Email or username required"
    case PasswordTooShort => "Min 6 chars"
    case ConfirmRequired => "Confirm your password"
    case Mismatch => "Passwords do not match"
  }

  /**
   * `RegisterSchema`: the four length checks in field order, then the
   * refinement comparing the two passwords. Too-short strings do not abort
   * zod's parse, so the refinement runs beside them.
   */
  function Validate(f: RegisterFields): (r: seq<Issue>)
    ensures |r| <= 5
    ensures Mismatch in r ==> r[|r| - 1] == Mismatch
    ensures r != [] && r[0] == NameRequired <==> |f.name| < 1
  {
    (if |f.name| < 1 then [NameRequired] else [])
    + (if |f.emailOrUsername| < 3 then [IdentifierRequired] else [])
    + (if |f.password| < 6 then [PasswordTooShort] else [])
    + (if |f.confirm| < 6 then [ConfirmRequired] else [])
    + (if f.password != f.confirm then [Mismatch] else [])
  }

  /** `showMismatchError`: both watched passwords non-empty and different. */
  predicate ShowMismatch(password: string, confirm: string) {
    confirm != [] && password != [] && password != confirm
  }

  /** `isEmail`: the identifier contains "@". */
  predicate LooksLikeEmail(identifier: string) {
    '@' in identifier
  }

  /** The body `onSubmit` posts: name and password, and the identifier under `email` or `username`. */
  function Body(f: RegisterFields): (b: AuthRouter.Body)
    ensures "name" in b && "password" in b && b["password"] == f.password
    ensures ("email" in b) != ("username" in b)
  {
    map["name" := f.name, "password" := f.password]
    + (if LooksLikeEmail(f.emailOrUsername) then map["email" := f.emailOrUsername] else map["username" := f.emailOrUsername])
  }

  // ---------------------------------------------------------------------------
  // Properties

  /** The form submits exactly when every length check passes and the passwords agree. */
  lemma ValidIff(f: RegisterFields)
    ensures Validate(f) == [] <==>
      |f.name| >= 1 && |f.emailOrUsername| >= 3 && |f.password| >= 6 && |f.confirm| >= 6 && f.password == f.confirm
  {
  }

  /** Each check reports its own issue, on its own field, exactly when it fails. */
  lemma IssuesPerField(f: RegisterFields)
    ensures NameRequired in Validate(f) <==> |f.name| < 1
    ensures IdentifierRequired in Validate(f) <==> |f.emailOrUsername| < 3
    ensures PasswordTooShort in Validate(f) <==> |f.password| < 6
  {
  }

  /** The confirmation field carries its length issue and, separately, the mismatch. */
  lemma ConfirmIssues(f: RegisterFields)
    ensures ConfirmRequired in Validate(f) <==> |f.confirm| < 6
    ensures Mismatch in Validate(f) <==> f.password != f.confirm
    ensures Path(Mismatch) == "confirm"
  {
  }

  /** The live flag implies the schema's mismatch issue; the schema also catches a mismatch against an empty field. */
  lemma MismatchFlagAgainstSchema(f: RegisterFields)
    ensures ShowMismatch(f.password, f.confirm) ==> Mismatch in Validate(f)
    ensures Mismatch in Validate(f) && !ShowMismatch(f.password, f.confirm) <==>
      f.password != f.confirm && (f.password == [] || f.confirm == [])
  {
    ConfirmIssues(f);
  }

  /**
   * The body always carries the name and the password, and the identifier
   * under exactly one key: `email` when it contains "@", `username` otherwise.
   */
  lemma BodyRouting(f: RegisterFields)
    ensures var b := Body(f);
      && "name" in b && b["name"] == f.name
      && "password" in b && b["password"] == f.password
      && ("email" in b <==> LooksLikeEmail(f.emailOrUsername))
      && ("username" in b <==> !LooksLikeEmail(f.emailOrUsername))
      && ("email" in b ==> b["email"] == f.emailOrUsername)
      && ("username" in b ==> b["username"] == f.emailOrUsername)
      && b.Keys == {"name", "password", if LooksLikeEmail(f.emailOrUsername) then "email" else "username"}
  {
  }

  /**
   * A form that validates with an identifier the backend's `EmailStr`
   * accepts is registered under the normalised address and that password.
   */
  lemma EmailBodyAccepted(f: RegisterFields, normalize: EmailStr.Normalizer)
    requires Validate(f) == [] && LooksLikeEmail(f.emailOrUsername) && normalize(f.emailOrUsername).Some?
    ensures AuthRouter.ParseRegister(Body(f), normalize)
      == Ok(AuthRouter.RegisterRequest(normalize(f.emailOrUsername).value, f.password))
  {
    ValidIff(f);
    BodyRouting(f);
  }

  /**
   * A username-only body never registers: the backend's `RegisterRequest`
   * requires `email`, so the form's username path is always refused with an
   * issue on `email`.
   */
  lemma UsernameBodyRefused(f: RegisterFields, normalize: EmailStr.Normalizer)
    requires !LooksLikeEmail(f.emailOrUsername)
    ensures var r := AuthRouter.ParseRegister(Body(f), normalize);
      r.Err? && "email" in r.error
  {
    BodyRouting(f);
  }
}
