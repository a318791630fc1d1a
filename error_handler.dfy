/** The application-level error handler, mounted after every router. */
module ErrorReporting {

  import opened Base
  import opened Http

  const GenericMessage := "An unexpected error occurred. Please try again later."

  /** Every forwarded error becomes a 500 with the fixed message, and the error's own message beside it. */
  function ErrorHandler(err: Error): (r: Response)
    ensures r.status == 500
    ensures r.body.ErrorReport? && !r.body.success && r.body.errorMessage == GenericMessage
    ensures r.body.error == err.message
  {
    Response(500, ErrorReport(false, GenericMessage, err.message))
  }

  /** Two errors are reported identically exactly when their messages agree: the detail is exposed. */
  lemma ErrorDetailExposed(a: Error, b: Error)
    ensures ErrorHandler(a) == ErrorHandler(b) <==> a.message == b.message
  {
  }

  /**
   * What the client receives for a router's outcome: responses go out as
   * sent, forwarded errors through `ErrorHandler`, and a `next()` past the
   * last handler reaches Express's default 404.
   */
  function Serve(o: Outcome<()>): (r: Response)
    ensures o.Respond? ==> r == Response(o.status, o.body)
    ensures o.Fail? ==> r == ErrorHandler(o.err)
    ensures o.Next? ==> r.status == 404
  {
    match o
    case Respond(status, body) => Response(status, body)
    case Fail(err) => ErrorHandler(err)
    case Next(_) => Response(404, Text("Not Found"))
  }
}
