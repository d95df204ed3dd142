/** The shape of a route handler's answer: a JSON body, or an error status with its message. */
module Http {
  datatype Response<T> = Ok(body: T) | Error(status: int, message: string)

  /** The 401 every route answers when the session has no user id. */
  function Unauthorized<T>(): (r: Response<T>)
    ensures r.Error? && r.status == 401
  {
    Error(401, "Unauthorized")
  }
}
