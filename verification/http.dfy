/** What a route handler sees of a request and what it answers. */
module Http {
  import opened Wrappers
  import opened Validation
  import Auth

  /**
   * An inbound request: the `Authorization` header (None when absent), the
   * query parameters, and the body as `request.json()` parses it (None when it
   * throws on a malformed body).
   */
  datatype Request = Request(authorization: Option<string>, query: map<string, string>, body: Option<Json>)

  /** A JSON response: `{ error }` with a status, or a success body with a status. */
  datatype Response<+T> = Failure(status: int, error: string) | Success(status: int, body: T)

  /** The 201 body of a create route: `{ message, <record> }`. */
  datatype Created<+T> = Created(message: string, record: T)

  /** A response together with the store after the handler ran. */
  datatype Step<+T, +S> = Step(response: Response<T>, state: S)

  /**
   * The process-wide facts every handler uses: the JWT codec keyed by the
   * signing secret, and the wall clock in milliseconds since the epoch.
   */
  datatype Context = Context(codec: Auth.Codec, now: int)

  const Unauthorized := "Unauthorized"
  const InternalError := "Internal server error"

  /** The identity the bearer header proves, as `getUserFromRequest` resolves it. */
  function Requester(ctx: Context, req: Request): Option<string> {
    Auth.GetUserFromRequest(ctx.codec, req.authorization, ctx.now)
  }
}
