/**
 * Requests, response bodies and the outcome of one middleware stage.
 *
 * An Express stage either answers the request (`res.status(s).json(...)`,
 * `res.send`, `res.sendStatus`), passes control on with `next()` (carrying
 * what it attached to `req`), or forwards an error with `next(error)`.
 */
module Http {

  import opened Base
  import opened SubscriptionModel
  import opened SessionModel

  /** The JSON (or text) bodies the backend sends. */
  datatype Body =
    | Message(message: string)                     // { message }
    | ValidationErrors(errors: seq<string>)        // { errors: errors.array() }, by message
    | Text(text: string)                           // res.send(text), res.sendStatus(code)
    | Tokens(accessToken: string, refreshToken: string)
    | AccessToken(accessToken: string)
    | SubscriptionCreated(subscriptionId: string)
    | SubscriptionRecord(subscription: Subscription)
    | SubscriptionList(subscriptions: seq<Subscription>)
    | SessionCreated(sessionId: string)
    | SessionRecord(session: Session)
    | TopicList(topics: seq<string>)
    | BlogPost(blogPost: string)
    | ErrorReport(success: bool, errorMessage: string, error: string)

  datatype Outcome<+C> =
    | Respond(status: nat, body: Body)
    | Next(ctx: C)
    | Fail(err: Error)

  /** What reaches the client. */
  datatype Response = Response(status: nat, body: Body)

  /** The `Authorization` header (absent or present) and the parsed JSON body's string fields. */
  datatype Request = Request(authorization: Option<string>, body: map<string, string>)

  /** A body field as express-validator reads it: an absent field is the empty string. */
  function Field(body: map<string, string>, name: string): string {
    if name in body then body[name] else ""
  }

  /** A stage that stopped the chain stops every later stage the same way. */
  function Halt<C, D>(o: Outcome<C>): (r: Outcome<D>)
    requires !o.Next?
    ensures o.Respond? ==> r == Respond(o.status, o.body)
    ensures o.Fail? ==> r == Fail(o.err)
  {
    match o
    case Respond(status, body) => Respond(status, body)
    case Fail(err) => Fail(err)
  }

  /** Running `stage` after a stage that called `next()`; the chain order of a router declaration. */
  function Then<C, D>(o: Outcome<C>, stage: C -> Outcome<D>): (r: Outcome<D>)
    ensures o.Next? ==> r == stage(o.ctx)
    ensures !o.Next? ==> r == Halt(o)
  {
    if o.Next? then stage(o.ctx) else Halt(o)
  }
}
