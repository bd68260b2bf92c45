/** Values shared by the backend and client models: identifiers, optional values
    and the HTTP-style replies the route handlers send. */
module Common {

  /** Database identifiers (Mongo ObjectIds) are modelled as naturals; the source
      compares them only for equality (after `toString()`). */
  type UserId = nat
  type EntryId = nat

  datatype Option<+T> = None | Some(value: T)

  /** A handler's reply: a success status with a body, or an error status with the
      `msg` text the handler puts in its JSON body. */
  datatype Response<+T> = Success(status: int, body: T) | Failure(status: int, msg: string)
}
