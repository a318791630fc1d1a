/**
 * The `authenticateToken` middleware: a chain of early returns on the
 * `Authorization` header. The header follows the Bearer scheme of section 2.1
 * of RFC 6750, read strictly: the prefix "Bearer " is case-sensitive and the
 * token is the second space-separated field of the header.
 */
module AuthGate {

  import opened Base
  import opened JsText
  import opened Http
  import opened Crypto

  const BearerPrefix := "Bearer "
  const MalformedHeader := "Authorization header missing or malformed"
  const TokenMissing := "Token missing"
  const InternalError := "Internal server error"
  const InvalidToken := "Invalid token"

  /** `authHeader.split(' ')[1]`, reading a missing field as "" (both are falsy). */
  function SecondField(header: string): (token: string)
    ensures ' ' !in token
  {
    var fields := Split(header, ' ');
    if |fields| > 1 then fields[1] else ""
  }

  /** The header is present and starts with the exact prefix "Bearer ". */
  predicate WellFormed(header: Option<string>) {
    header.Some? && StartsWith(header.value, BearerPrefix)
  }

  /**
   * One request through the gate: 401 for a missing or malformed header or an
   * empty token, then 500 for an unset secret, then 403 when verification
   * fails, and otherwise `next()` with the decoded claims attached as
   * `req.user`. The gate never forwards an error.
   */
  function AuthenticateToken(header: Option<string>, secret: string, verify: (string, string) -> Option<Claims>)
    : (r: Outcome<Claims>)
    ensures !r.Fail?
    ensures r.Respond? ==> r.status == 401 || r.status == 403 || r.status == 500
    ensures r == Respond(401, Message(MalformedHeader)) <==> !WellFormed(header)
    ensures r == Respond(401, Message(TokenMissing)) <==> WellFormed(header) && SecondField(header.value) == ""
    ensures r.Respond? && r.status == 500 <==>
      WellFormed(header) && SecondField(header.value) != "" && secret == ""
    ensures r.Respond? && r.status == 403 <==>
      WellFormed(header) && SecondField(header.value) != "" && secret != ""
      && verify(SecondField(header.value), secret) == None
    ensures r.Next? <==>
      WellFormed(header) && SecondField(header.value) != "" && secret != ""
      && verify(SecondField(header.value), secret).Some?
    ensures r.Next? ==> verify(SecondField(header.value), secret) == Some(r.ctx)
    ensures r.Respond? && r.status == 500 ==> r.body == Message(InternalError)
    ensures r.Respond? && r.status == 403 ==> r.body == Message(InvalidToken)
  {
    if !WellFormed(header) then
      Respond(401, Message(MalformedHeader))
    else
      var token := SecondField(header.value);
      if token == "" then
        Respond(401, Message(TokenMissing))
      else if secret == "" then
        Respond(500, Message(InternalError))
      else
        match verify(token, secret)
        case None => Respond(403, Message(InvalidToken))
        case Some(user) => Next(user)
  }

  /** Behind the prefix, the token runs up to the next space or the end of the header. */
  lemma SecondFieldAfterPrefix(header: string)
    requires StartsWith(header, BearerPrefix)
    ensures SecondField(header) == Split(header[|BearerPrefix|..], ' ')[0]
    ensures ' ' !in SecondField(header)
    ensures StartsWith(header[|BearerPrefix|..], SecondField(header))
  {
    assert header == "Bearer" + [' '] + header[7..];
    SplitAtSeparator("Bearer", header[7..], ' ');
    FirstPiece(header[7..], ' ');
  }

  /** A header that is missing, or whose prefix differs in case, is refused before the secret is looked at. */
  lemma PrefixCheckedFirst(secret: string, verify: (string, string) -> Option<Claims>, token: string)
    ensures AuthenticateToken(None, secret, verify) == Respond(401, Message(MalformedHeader))
    ensures AuthenticateToken(Some("bearer " + token), secret, verify) == Respond(401, Message(MalformedHeader))
  {
    assert !StartsWith("bearer " + token, BearerPrefix) by {
      assert ("bearer " + token)[0] == 'b';
    }
  }

  /** "Bearer " carries an empty second field. */
  lemma EmptyAfterPrefix(secret: string, verify: (string, string) -> Option<Claims>)
    ensures AuthenticateToken(Some("Bearer "), secret, verify) == Respond(401, Message(TokenMissing))
  {
    var header := "Bearer ";
    assert StartsWith(header, BearerPrefix);
    SecondFieldAfterPrefix(header);
    assert header[7..] == [];
  }

  /** With a doubled space the second field is the empty text between the two spaces. */
  lemma DoubleSpaceAfterPrefix(secret: string, verify: (string, string) -> Option<Claims>)
    ensures AuthenticateToken(Some("Bearer  x"), secret, verify) == Respond(401, Message(TokenMissing))
  {
    var header := "Bearer  x";
    assert StartsWith(header, BearerPrefix);
    SecondFieldAfterPrefix(header);
    assert header[7..] == [] + [' '] + "x";
    SplitAtSeparator([], "x", ' ');
  }

  /** Whatever follows the token after a further space is ignored: "Bearer a b" is checked on "a" alone. */
  lemma TrailingFieldIgnored(secret: string, verify: (string, string) -> Option<Claims>)
    ensures AuthenticateToken(Some("Bearer a b"), secret, verify) == AuthenticateToken(Some("Bearer a"), secret, verify)
  {
    var long, short := "Bearer a b", "Bearer a";
    assert StartsWith(long, BearerPrefix) && StartsWith(short, BearerPrefix);
    SecondFieldAfterPrefix(long);
    SecondFieldAfterPrefix(short);
    assert long[7..] == "a" + [' '] + "b";
    SplitAtSeparator("a", "b", ' ');
    assert short[7..] == "a" + [];
    SplitPrefix("a", [], ' ');
  }

  /** The unset secret is reported only after both header checks have passed. */
  lemma SecretCheckedAfterHeader(header: Option<string>, verify: (string, string) -> Option<Claims>)
    requires !WellFormed(header) || SecondField(header.value) == ""
    ensures AuthenticateToken(header, "", verify).status == 401
  {
  }

  /** A token signed without expiry passes the gate, under the same secret, with the claims it was signed with. */
  lemma AcceptsIssuedToken(lib: Library, claims: Claims, secret: string)
    requires Lawful(lib)
    requires secret != "" && claims.expiresIn == None
    ensures AuthenticateToken(Some(BearerPrefix + lib.sign(claims, secret)), secret, lib.verify) == Next(claims)
  {
    var t := lib.sign(claims, secret);
    assert IsCompactToken(t);
    assert forall i :: 0 <= i < |t| ==> t[i] != ' ';
    var header := BearerPrefix + t;
    assert StartsWith(header, BearerPrefix);
    SecondFieldAfterPrefix(header);
    assert header[7..] == t + [];
    SplitPrefix(t, [], ' ');
    assert SecondField(header) == t;
  }
}
