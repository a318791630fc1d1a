/**
 * The `checkSubscription` middleware, and the two-gate chain
 * `authenticateToken, checkSubscription` that the generation routes mount
 * before their validators.
 */
module SubscriptionGate {

  import opened Base
  import opened Http
  import opened Crypto
  import opened SubscriptionModel
  import opened AuthGate
  import opened ErrorReporting

  /** The subscription collection as one query sees it: its rows, or the error the query threw. */
  datatype Store = Available(rows: seq<Subscription>) | Unavailable(error: Error)

  const SubscriptionRequired := "Active subscription required"

  /**
   * One lookup of an active row of the authenticated user: the request goes
   * on, unchanged, exactly when there is one; otherwise 403. A failed query is
   * forwarded to the error handler.
   */
  function CheckSubscription(user: Claims, store: Store): (r: Outcome<Claims>)
    ensures store.Unavailable? ==> r == Fail(store.error)
    ensures store.Available? ==> (r == Next(user) <==> HasActive(store.rows, user.userId))
    ensures store.Available? ==> (r == Respond(403, Message(SubscriptionRequired)) <==> !HasActive(store.rows, user.userId))
  {
    match store
    case Unavailable(error) => Fail(error)
    case Available(rows) =>
      if FindActive(rows, user.userId).Some? then Next(user) else Respond(403, Message(SubscriptionRequired))
  }

  /**
   * Rows that are inactive, or belong to other users, never unlock the gate:
   * adding any number of them changes nothing.
   */
  lemma OnlyOwnActiveRowsUnlock(user: Claims, rows: seq<Subscription>, others: seq<Subscription>)
    requires forall k :: 0 <= k < |others| ==> !ActiveOf(others[k], user.userId)
    ensures CheckSubscription(user, Available(rows + others)) == CheckSubscription(user, Available(rows))
    ensures CheckSubscription(user, Available(others + rows)) == CheckSubscription(user, Available(rows))
  {
    var front, back := rows + others, others + rows;
    if HasActive(front, user.userId) {
      var i :| 0 <= i < |front| && ActiveOf(front[i], user.userId);
      assert i < |rows| && rows[i] == front[i];
    }
    if HasActive(back, user.userId) {
      var i :| 0 <= i < |back| && ActiveOf(back[i], user.userId);
      assert |others| <= i && rows[i - |others|] == back[i];
    }
    if HasActive(rows, user.userId) {
      var i :| 0 <= i < |rows| && ActiveOf(rows[i], user.userId);
      assert front[i] == rows[i] && back[i + |others|] == rows[i];
    }
  }

  /** A failed lookup reaches the client as the error handler's 500, carrying the query's message. */
  lemma LookupFailureIsServerError(user: Claims, error: Error)
    ensures Serve(Halt(CheckSubscription(user, Unavailable(error)))) == ErrorHandler(error)
    ensures Serve(Halt(CheckSubscription(user, Unavailable(error)))).status == 500
  {
  }

  /** `authenticateToken, checkSubscription`: the second gate runs only on the claims the first one attached. */
  function ProtectedGates(req: Request, env: Env, verify: (string, string) -> Option<Claims>, store: Store)
    : (r: Outcome<Claims>)
    ensures r.Next? ==> AuthenticateToken(req.authorization, env.accessSecret, verify) == Next(r.ctx)
    ensures r.Next? && store.Available? ==> HasActive(store.rows, r.ctx.userId)
    ensures !AuthenticateToken(req.authorization, env.accessSecret, verify).Next? ==>
      r == Halt(AuthenticateToken(req.authorization, env.accessSecret, verify))
    ensures AuthenticateToken(req.authorization, env.accessSecret, verify).Next? ==>
      var user := AuthenticateToken(req.authorization, env.accessSecret, verify).ctx;
      && (store.Unavailable? ==> r == Fail(store.error))
      && (store.Available? && HasActive(store.rows, user.userId) ==> r == Next(user))
      && (store.Available? && !HasActive(store.rows, user.userId) ==> r == Respond(403, Message(SubscriptionRequired)))
  {
    Then(AuthenticateToken(req.authorization, env.accessSecret, verify), (user: Claims) => CheckSubscription(user, store))
  }

  /**
   * A request the first gate turns away gets that gate's answer whatever the
   * subscription table holds: an unauthenticated request is 401 or 403 and
   * never reaches the lookup.
   */
  lemma RejectedBeforeLookup(req: Request, env: Env, verify: (string, string) -> Option<Claims>, a: Store, b: Store)
    requires !AuthenticateToken(req.authorization, env.accessSecret, verify).Next?
    ensures ProtectedGates(req, env, verify, a) == ProtectedGates(req, env, verify, b)
    ensures ProtectedGates(req, env, verify, a).Respond?
  {
  }
}
