/**
 * The express-validator checks and sanitizers the routes declare. `isEmail`,
 * `normalizeEmail`, `escape` and `isMongoId` are library code and are taken
 * as given functions; `trim` and `isEmpty` are modelled exactly.
 */
module Sanitizers {

  import opened JsText

  datatype Validators = Validators(
    isEmail: string -> bool,
    normalizeEmail: string -> string,
    escape: string -> string,
    isMongoId: string -> bool)

  /** The characters `escape` rewrites as HTML entities. */
  predicate IsHtmlSpecial(c: char) {
    c == '&' || c == '<' || c == '>' || c == '"' || c == '\'' || c == '/' || c == '\\' || c == '`'
  }

  predicate NoHtmlSpecial(s: string) {
    forall i :: 0 <= i < |s| ==> !IsHtmlSpecial(s[i])
  }

  /** `escape` maps exactly the empty string to the empty string and leaves text without special characters alone. */
  ghost predicate Lawful(v: Validators) {
    && (forall s :: v.escape(s) == [] <==> s == [])
    && (forall s :: NoHtmlSpecial(s) ==> v.escape(s) == s)
  }

  /** `.trim().escape()`: the value the handler reads after the chain has run. */
  function Sanitized(v: Validators, raw: string): string {
    v.escape(Trim(raw))
  }

  /** `.not().isEmpty().withMessage(message)` on the raw value. */
  function RequireNonEmpty(raw: string, message: string): (errors: seq<string>)
    ensures errors == [] <==> raw != []
    ensures raw == [] ==> errors == [message]
  {
    if raw == [] then [message] else []
  }
}
