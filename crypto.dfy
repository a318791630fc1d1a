/**
 * bcryptjs and jsonwebtoken, seen from the routes. Their algorithms are not
 * modelled: a `Library` value supplies the four operations and `Lawful` states
 * the only facts the backend relies on.
 */
module Crypto {

  import opened Base

  /** The payload the backend signs and reads back: the user's id and the `expiresIn` option in seconds. */
  datatype Claims = Claims(userId: string, expiresIn: Option<nat>)

  /** `expiresIn: '15m'`. */
  const AccessTokenLifetime: nat := 15 * 60

  /** The two signing secrets from the environment; "" stands for unset (both are falsy). */
  datatype Env = Env(accessSecret: string, refreshSecret: string)

  datatype Library = Library(
    hash: (string, string) -> string,        // bcrypt.hash(password, salt)
    compare: (string, string) -> bool,       // bcrypt.compare(password, hash)
    sign: (Claims, string) -> string,        // jwt.sign(claims, secret)
    verify: (string, string) -> Option<Claims>)   // jwt.verify(token, secret)

  /** The base64url alphabet and '.', from which a compact JWS is built. */
  predicate IsCompactChar(c: char) {
    ('a' <= c <= 'z') || ('A' <= c <= 'Z') || ('0' <= c <= '9') || c == '-' || c == '_' || c == '.'
  }

  predicate IsCompactToken(t: string) {
    t != [] && forall i :: 0 <= i < |t| ==> IsCompactChar(t[i])
  }

  /**
   * A hash compares equal to the password it was made from; a signed token
   * is compact; and a token signed without expiry verifies, with the same
   * secret, to the claims it was signed with (RFC 7519).
   */
  ghost predicate Lawful(lib: Library) {
    && (forall password, salt :: lib.compare(password, lib.hash(password, salt)))
    && (forall claims, secret :: IsCompactToken(lib.sign(claims, secret)))
    && (forall claims: Claims, secret: string | secret != "" && claims.expiresIn == None ::
          lib.verify(lib.sign(claims, secret), secret) == Some(claims))
  }

  /** What `jwt.sign` throws when the secret is unset. */
  const MissingSecret := Error("Error", "secretOrPrivateKey must have a value")

  /** `jwt.sign(claims, secret)`, which throws rather than sign with an unset secret. */
  function Sign(lib: Library, claims: Claims, secret: string): (r: Result<string>)
    ensures r.Err? <==> secret == ""
    ensures r.Ok? ==> r.value == lib.sign(claims, secret)
  {
    if secret == "" then Err(MissingSecret) else Ok(lib.sign(claims, secret))
  }
}
