/**
 * pydantic's `EmailStr`, the type of the email fields of `RegisterRequest`,
 * `LoginRequest` (backend/app/api/auth_router.py) and `UserCreate`,
 * `UserPublic` (backend/app/schemas/user.py).
 */
module EmailStr {
  import opened Wrappers

  /**
   * `EmailStr` as a validator: `None` refuses a string that is not an
   * address; `Some(a)` accepts it and hands the handler `a`, the normalised
   * address (the domain lower-cased, a "Name <addr>" form reduced to the
   * address) in place of what the client sent. The grammar and the normal
   * form are this parameter.
   */
  type Normalizer = string -> Option<string>

  /**
   * The validated value of an optional `EmailStr` field of a JSON body:
   * absent, refused, or the normalised address.
   */
  function OptionalField(body: map<string, string>, key: string, normalize: Normalizer): (r: Option<string>)
    ensures key !in body ==> r.None?
    ensures key in body ==> r == normalize(body[key])
  {
    if key in body then normalize(body[key]) else None
  }
}
