/**
 * The responses the controllers send: a status with a JSON payload, a
 * `{ message }` object, or no body, and the catch block the application
 * controller shares between its write handlers.
 */
module Http {
  import opened Errors
  import opened Failures

  datatype Body<+T> = Payload(value: T) | WithMessage(message: string) | NoBody

  datatype Response<+T> = Response(status: int, body: Body<T>)

  /**
   * `if (error instanceof ApplicationError) res.status(error.statusCode)…
   * else res.status(500).json({ message: fallback })`.
   */
  function Caught<T>(err: Thrown, fallback: string): (r: Response<T>)
    ensures err.AppErr? ==> r == Response(err.app.statusCode, WithMessage(err.app.message))
    ensures !err.AppErr? ==> r == Response(500, WithMessage(fallback))
  {
    if err.AppErr? then Response(err.app.statusCode, WithMessage(err.app.message))
    else Response(500, WithMessage(fallback))
  }
}
