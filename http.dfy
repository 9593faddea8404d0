/** The parts of an Express request and response the rating core looks at. */
module Http {
  import opened Options

  /** The session fields the handlers read: `req.session.userId` and `req.session.userType`. */
  datatype Session = Session(userId: Option<int>, userType: Option<string>)

  /** The JSON bodies the rating routes and the middleware send. */
  datatype Body =
    | AverageBody(averageRating: real)
    | SubmittedBody(message: string, averageRating: real)
    | DeletedBody(message: string, id: int)
    | ErrorBody(error: string)

  datatype Response = Response(status: int, body: Body)

  /** What a middleware invocation did: the response it sent, if any, and whether it called `next`. */
  datatype Effect = Effect(response: Option<Response>, nextCalled: bool)

  /** `req.session?.userId`: missing when there is no session at all. */
  function SessionUserId(session: Option<Session>): Option<int>
  {
    if session.Some? then session.value.userId else None
  }

  /** `req.session?.userType`. */
  function SessionUserType(session: Option<Session>): Option<string>
  {
    if session.Some? then session.value.userType else None
  }
}
