/** What a route handler sees of the caller and what it answers. */
module Http {
  /** The signed-in user of a session: the subject id and the email claim ("" when
      the claim is absent or not a string). */
  datatype Session = Session(sub: string, email: string)

  datatype Response<T> =
    | Ok(body: T)                     // 200 with a JSON body
    | Fail(status: nat, error: string) // an explicit error status with { error }
    | Crash                           // an exception the handler does not catch: the framework answers 500
}
