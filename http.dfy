/** What an Express handler answers: a JSON body, or an error status with its `{ error }` message. */
module Http {

  datatype Response<+T> = Done(body: T) | Failed(status: int, error: string)
}
