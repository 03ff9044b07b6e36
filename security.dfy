/**
 * Password hashing and token minting (backend/app/core/security.py).
 *
 * bcrypt (passlib) and JWT signing (python-jose) are foreign libraries. Each is
 * a value holding its functions, and a ghost predicate `Sound` states the one
 * property the rest of the code relies on; lemmas that need it require it.
 */
module Security {
  import opened Wrappers
  import opened Config

  /** A JSON claim value as the routes use them: strings and integers. */
  datatype ClaimValue = Str(text: string) | Num(n: int)

  type Claims = map<string, ClaimValue>

  /** The decode oracle's outcomes: claims, `ExpiredSignatureError`, or any other `JWTError`. */
  datatype Decoded = Valid(claims: Claims) | Expired | Invalid

  /**
   * What python-jose's `jwt.decode` reports, at time `now` (seconds), for a
   * token that `jwt.encode` made from `claims` with the same key and
   * algorithm: `exp` must be an integer and not before `now`, and `sub`, when
   * present, must be a string.
   */
  function DecodeVerdict(claims: Claims, now: int): (r: Decoded)
    ensures r.Valid? <==>
      && ("exp" in claims ==> claims["exp"].Num? && claims["exp"].n >= now)
      && ("sub" in claims ==> claims["sub"].Str?)
    ensures r.Valid? ==> r.claims == claims
    ensures r.Expired? ==> "exp" in claims && claims["exp"].Num? && claims["exp"].n < now
  {
    if "exp" in claims && !claims["exp"].Num? then Invalid
    else if "exp" in claims && claims["exp"].n < now then Expired
    else if "sub" in claims && !claims["sub"].Str? then Invalid
    else Valid(claims)
  }

  /** JWT encode (claims, key, algorithm) and decode (token, key, algorithm, now). */
  datatype Jwt = Jwt(
    encode: (Claims, string, string) -> string,
    decode: (string, string, string, int) -> Decoded)
  {
    /** Decoding what was encoded under the same key and algorithm gives the claims back. */
    ghost predicate Sound() {
      forall c: Claims, key: string, alg: string, now: int ::
        decode(encode(c, key, alg), key, alg, now) == DecodeVerdict(c, now)
    }
  }

  /** bcrypt through passlib's `CryptContext`. */
  datatype Hasher = Hasher(hash: string -> string, verify: (string, string) -> bool)
  {
    /** A password verifies against its own hash. */
    ghost predicate Sound() {
      forall p: string :: verify(p, hash(p))
    }
  }

  /** `hash_password`. */
  function HashPassword(h: Hasher, password: string): (digest: string)
    ensures h.Sound() ==> VerifyPassword(h, password, digest)
  {
    h.hash(password)
  }

  /** `verify_password`. */
  function VerifyPassword(h: Hasher, plain: string, hashed: string): (r: bool)
    ensures h.Sound() && hashed == h.hash(plain) ==> r
  {
    h.verify(plain, hashed)
  }

  /** A copy of `data` with `exp` set; `data` itself is a value and stays as it was. */
  function WithExpiry(data: Claims, exp: int): (c: Claims)
    ensures c.Keys == data.Keys + {"exp"}
    ensures c["exp"] == Num(exp)
    ensures forall k :: k in data && k != "exp" ==> c[k] == data[k]
  {
    data["exp" := Num(exp)]
  }

  /** Seconds a token stays valid. */
  function Lifetime(s: Settings): int
  {
    s.jwtExpireMinutes * 60
  }

  /** `create_access_token(data)` at clock reading `now` (whole seconds). */
  function CreateAccessToken(jwt: Jwt, s: Settings, data: Claims, now: int): (token: string)
    ensures jwt.Sound() ==>
      jwt.decode(token, s.jwtSecretKey, s.jwtAlgorithm, now) == DecodeVerdict(WithExpiry(data, now + Lifetime(s)), now)
  {
    jwt.encode(WithExpiry(data, now + Lifetime(s)), s.jwtSecretKey, s.jwtAlgorithm)
  }

  /**
   * A minted token decodes, under the configured key and algorithm, to the
   * input claims plus `exp` until `now + JWT_EXPIRE_MINUTES` minutes, and is
   * reported expired after that.
   */
  lemma AccessTokenDecodes(jwt: Jwt, s: Settings, data: Claims, now: int, later: int)
    requires jwt.Sound()
    requires "sub" in data ==> data["sub"].Str?
    ensures var d := jwt.decode(CreateAccessToken(jwt, s, data, now), s.jwtSecretKey, s.jwtAlgorithm, later);
      && (later <= now + Lifetime(s) ==> d == Valid(WithExpiry(data, now + Lifetime(s))))
      && (later > now + Lifetime(s) ==> d == Expired)
  {
  }

  /** An `exp` already in the input is replaced by the computed expiry. */
  lemma ExpiryOverridesInput(data: Claims, exp: int, stale: int)
    ensures WithExpiry(data["exp" := Num(stale)], exp) == WithExpiry(data, exp)
  {
  }
}
