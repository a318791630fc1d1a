/**
 * The auth router: `/register` inserts into the user collection, `/login`
 * reads it and signs two tokens, `/token` exchanges a refresh token for a
 * new access token. None of these routes sits behind a gate.
 */
module AuthRoutes {

  import opened Base
  import opened JsText
  import opened Http
  import opened Crypto
  import opened Sanitizers
  import opened UserModel
  import opened AuthGate

  const InvalidEmail := "Invalid email address"
  const PasswordTooShort := "Password must be at least 6 characters long"
  const PasswordRequired := "Password is required"
  const RefreshTokenRequired := "Refresh token is required"
  const EmailTaken := "User with this email already exists"
  const Registered := "User registered successfully"
  const UserNotFound := "User not found"
  const InvalidCredentials := "Invalid credentials"
  /** `isLength({ min: 6 })`. */
  const MinPasswordLength := 6

  /** The validator chain of `/register`, by message; the length is checked on the raw, untrimmed password. */
  function RegisterErrors(v: Validators, body: map<string, string>): (errors: seq<string>)
    ensures errors == [] <==> v.isEmail(Field(body, "email")) && |Field(body, "password")| >= MinPasswordLength
    ensures PasswordTooShort in errors <==> |Field(body, "password")| < MinPasswordLength
  {
    (if v.isEmail(Field(body, "email")) then [] else [InvalidEmail])
    + (if |Field(body, "password")| >= MinPasswordLength then [] else [PasswordTooShort])
  }

  /** The validator chain of `/login`. */
  function LoginErrors(v: Validators, body: map<string, string>): (errors: seq<string>)
    ensures errors == [] <==> v.isEmail(Field(body, "email")) && Field(body, "password") != ""
  {
    (if v.isEmail(Field(body, "email")) then [] else [InvalidEmail])
    + RequireNonEmpty(Field(body, "password"), PasswordRequired)
  }

  /** The e-mail both routes read after `normalizeEmail`. */
  function NormalizedEmail(v: Validators, body: map<string, string>): string {
    v.normalizeEmail(Field(body, "email"))
  }

  /** The password both routes read after `trim` and `escape`. */
  function SanitizedPassword(v: Validators, body: map<string, string>): string {
    Sanitized(v, Field(body, "password"))
  }

  /** The document `/register` saves: the normalised e-mail and the hash of the sanitised password. */
  function NewAccount(v: Validators, lib: Library, body: map<string, string>, id: string, subscriptionId: string, salt: string)
    : (u: User)
    ensures u.email == NormalizedEmail(v, body)
    ensures u.password == lib.hash(SanitizedPassword(v, body), salt)
    ensures u.id == id && u.subscriptionId == subscriptionId && u.activeTime == 0
  {
    NewUser(id, NormalizedEmail(v, body), lib.hash(SanitizedPassword(v, body), salt), subscriptionId)
  }

  class UserTable {

    var rows: seq<User>

    /** The `email` unique index and the `_id` index. */
    ghost predicate Valid()
      reads this
    {
      UniqueKeys(rows)
    }

    constructor()
      ensures rows == [] && Valid()
    {
      rows := [];
    }

    /**
     * `POST /register`. `id` and `subscriptionId` are the generated `_id` and
     * uuid, `salt` the salt bcrypt draws. A schema violation is answered with
     * 400 and the validation message; any other failure is forwarded.
     */
    method Register(req: Request, v: Validators, lib: Library, id: string, subscriptionId: string, salt: string)
      returns (r: Outcome<()>)
      requires Valid()
      modifies this
      ensures Valid()
      ensures !r.Next?
      ensures
        var u := NewAccount(v, lib, req.body, id, subscriptionId, salt);
        if RegisterErrors(v, req.body) != [] then
          r == Respond(400, ValidationErrors(RegisterErrors(v, req.body))) && rows == old(rows)
        else if FindByEmail(old(rows), u.email).Some? then
          r == Respond(400, Message(EmailTaken)) && rows == old(rows)
        else if !SchemaValid(u) then
          r == Respond(400, Message(ValidationFailure(u).message)) && rows == old(rows)
        else if IdTaken(old(rows), id) then
          r == Fail(DuplicateKey) && rows == old(rows)
        else
          r == Respond(201, Text(Registered)) && rows == old(rows) + [u]
    {
      var errors := RegisterErrors(v, req.body);
      if errors != [] {
        return Respond(400, ValidationErrors(errors));
      }
      var u := NewAccount(v, lib, req.body, id, subscriptionId, salt);
      if FindByEmail(rows, u.email).Some? {
        return Respond(400, Message(EmailTaken));
      }
      if !SchemaValid(u) {
        return Respond(400, Message(ValidationFailure(u).message));
      }
      if IdTaken(rows, id) {
        return Fail(DuplicateKey);
      }
      rows := rows + [u];
      return Respond(201, Text(Registered));
    }
  }

  /**
   * `POST /login` against the user collection `users`: 400 for an unknown
   * e-mail, 403 for a password that does not match the stored hash, and
   * otherwise an access and a refresh token, both carrying the user's id and
   * no expiry, signed with the two secrets.
   */
  function Login(users: seq<User>, req: Request, env: Env, lib: Library, v: Validators): (r: Outcome<()>)
    ensures !r.Next?
    ensures LoginErrors(v, req.body) != [] ==> r == Respond(400, ValidationErrors(LoginErrors(v, req.body)))
    ensures LoginErrors(v, req.body) == [] ==>
      match FindByEmail(users, NormalizedEmail(v, req.body))
      case None => r == Respond(400, Message(UserNotFound))
      case Some(i) =>
        && (!lib.compare(SanitizedPassword(v, req.body), users[i].password) <==> r == Respond(403, Message(InvalidCredentials)))
        && (r.Fail? <==> lib.compare(SanitizedPassword(v, req.body), users[i].password)
                         && (env.accessSecret == "" || env.refreshSecret == ""))
        && (r.Fail? ==> r == Fail(MissingSecret))
        && (r.Respond? && r.status == 200 ==>
              r.body == Tokens(lib.sign(Claims(users[i].id, None), env.accessSecret),
                               lib.sign(Claims(users[i].id, None), env.refreshSecret)))
        && (lib.compare(SanitizedPassword(v, req.body), users[i].password)
            && env.accessSecret != "" && env.refreshSecret != "" ==>
              r == Respond(200, Tokens(lib.sign(Claims(users[i].id, None), env.accessSecret),
                                       lib.sign(Claims(users[i].id, None), env.refreshSecret))))
  {
    var errors := LoginErrors(v, req.body);
    if errors != [] then Respond(400, ValidationErrors(errors))
    else
      match FindByEmail(users, NormalizedEmail(v, req.body))
      case None => Respond(400, Message(UserNotFound))
      case Some(i) =>
        var user := users[i];
        if !lib.compare(SanitizedPassword(v, req.body), user.password) then Respond(403, Message(InvalidCredentials))
        else
          var claims := Claims(user.id, None);
          match Sign(lib, claims, env.accessSecret)
          case Err(e) => Fail(e)
          case Ok(accessToken) =>
            match Sign(lib, claims, env.refreshSecret)
            case Err(e) => Fail(e)
            case Ok(refreshToken) => Respond(200, Tokens(accessToken, refreshToken))
  }

  /**
   * `POST /token`: 400 for an absent or empty token, 401 when nothing is
   * left after sanitising, 403 when the token does not verify under the
   * refresh secret (an unset secret included), and otherwise a new access
   * token for the same user that expires after 15 minutes.
   */
  function RefreshToken(req: Request, env: Env, lib: Library, v: Validators): (r: Outcome<()>)
    ensures !r.Next?
    ensures r == Respond(400, ValidationErrors([RefreshTokenRequired])) <==> Field(req.body, "token") == ""
    ensures r == Respond(401, Text("Unauthorized")) <==>
      Field(req.body, "token") != "" && Sanitized(v, Field(req.body, "token")) == ""
    ensures r == Respond(403, Text("Forbidden")) <==>
      Field(req.body, "token") != "" && Sanitized(v, Field(req.body, "token")) != ""
      && (env.refreshSecret == "" || lib.verify(Sanitized(v, Field(req.body, "token")), env.refreshSecret).None?)
    ensures r.Respond? && r.status == 200 ==>
      exists claims :: lib.verify(Sanitized(v, Field(req.body, "token")), env.refreshSecret) == Some(claims)
        && r.body == AccessToken(lib.sign(Claims(claims.userId, Some(AccessTokenLifetime)), env.accessSecret))
    ensures Field(req.body, "token") != "" && Sanitized(v, Field(req.body, "token")) != "" && env.refreshSecret != ""
            && lib.verify(Sanitized(v, Field(req.body, "token")), env.refreshSecret).Some? ==>
      var claims := lib.verify(Sanitized(v, Field(req.body, "token")), env.refreshSecret).value;
      && (r.Fail? <==> env.accessSecret == "")
      && (env.accessSecret == "" ==> r == Fail(MissingSecret))
      && (env.accessSecret != "" ==>
            r == Respond(200, AccessToken(lib.sign(Claims(claims.userId, Some(AccessTokenLifetime)), env.accessSecret))))
  {
    var raw := Field(req.body, "token");
    if raw == "" then Respond(400, ValidationErrors([RefreshTokenRequired]))
    else
      var token := Sanitized(v, raw);
      if token == "" then Respond(401, Text("Unauthorized"))
      else
        var decoded := if env.refreshSecret == "" then None else lib.verify(token, env.refreshSecret);
        match decoded
        case None => Respond(403, Text("Forbidden"))
        case Some(claims) =>
          match Sign(lib, Claims(claims.userId, Some(AccessTokenLifetime)), env.accessSecret)
          case Err(e) => Fail(e)
          case Ok(accessToken) => Respond(200, AccessToken(accessToken))
  }

  /** A password padded to the minimum length with spaces is accepted, though it is shorter once trimmed. */
  lemma LengthCheckedBeforeTrim(v: Validators, email: string)
    requires v.isEmail(email)
    ensures RegisterErrors(v, map["email" := email, "password" := "  abcd"]) == []
    ensures |Trim("  abcd")| < MinPasswordLength
  {
    var s := "  abcd";
    assert !Trimmed(s) by {
      assert s[0] == ' ';
    }
    var r := Trim(s);
    var i: nat :| PaddedAt(s, r, i);
    assert |r| < |s|;
  }

  /**
   * The credentials a registration accepted log in on the table it produced:
   * both routes normalise the e-mail and sanitise the password the same way,
   * and the stored hash compares equal to the sanitised password. The access
   * token issued then passes the authentication gate with the new user's id.
   */
  lemma RegisterThenLogin(rows: seq<User>, req: Request, env: Env, lib: Library, v: Validators,
                          id: string, subscriptionId: string, salt: string)
    requires Crypto.Lawful(lib)
    requires env.accessSecret != "" && env.refreshSecret != ""
    requires RegisterErrors(v, req.body) == []
    requires FindByEmail(rows, NormalizedEmail(v, req.body)).None?
    ensures
      var u := NewAccount(v, lib, req.body, id, subscriptionId, salt);
      var access := lib.sign(Claims(id, None), env.accessSecret);
      && Login(rows + [u], req, env, lib, v) == Respond(200, Tokens(access, lib.sign(Claims(id, None), env.refreshSecret)))
      && AuthenticateToken(Some(BearerPrefix + access), env.accessSecret, lib.verify) == Next(Claims(id, None))
  {
    var u := NewAccount(v, lib, req.body, id, subscriptionId, salt);
    var t := rows + [u];
    var found := FindByEmail(t, u.email);
    assert t[|rows|].email == u.email;
    assert found.Some?;
    assert !(found.value < |rows|);
    assert lib.compare(SanitizedPassword(v, req.body), u.password);
    AcceptsIssuedToken(lib, Claims(id, None), env.accessSecret);
  }

  /** Every character of a compact token survives `trim` and `escape`. */
  lemma CompactTokenSurvivesSanitizing(v: Validators, t: string)
    requires Sanitizers.Lawful(v) && IsCompactToken(t)
    ensures Sanitized(v, t) == t
  {
    assert !IsWhitespace(t[0]) && !IsWhitespace(t[|t| - 1]) by {
      assert IsCompactChar(t[0]) && IsCompactChar(t[|t| - 1]);
    }
    TrimOfTrimmed(t);
    assert NoHtmlSpecial(t) by {
      forall i | 0 <= i < |t| ensures !IsHtmlSpecial(t[i]) {
        assert IsCompactChar(t[i]);
      }
    }
  }

  /**
   * The refresh token `/login` issued, sent back to `/token`, is exchanged
   * for an access token of the same user that expires after 15 minutes.
   */
  lemma RefreshAfterLogin(req: Request, env: Env, lib: Library, v: Validators, userId: string)
    requires Crypto.Lawful(lib) && Sanitizers.Lawful(v)
    requires env.accessSecret != "" && env.refreshSecret != ""
    requires Field(req.body, "token") == lib.sign(Claims(userId, None), env.refreshSecret)
    ensures RefreshToken(req, env, lib, v)
      == Respond(200, AccessToken(lib.sign(Claims(userId, Some(AccessTokenLifetime)), env.accessSecret)))
  {
    var t := lib.sign(Claims(userId, None), env.refreshSecret);
    assert IsCompactToken(t);
    CompactTokenSurvivesSanitizing(v, t);
  }
}
