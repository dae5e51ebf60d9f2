/**
 * What a handler hands back to the framework: a JSON body with a status, an
 * error passed to `next`, or nothing at all (an exception thrown outside every
 * `try`, which leaves the request without a response).
 */
module Http {
  import opened Wrappers
  import opened Store

  /** The error object handed to `next`: a message and a status code. */
  datatype HttpError = HttpError(message: string, code: int)

  /** The result of a collaborator that may throw an `HttpError` (the geocoder). */
  datatype Result<+T> = Ok(value: T) | Err(error: HttpError)

  datatype Body =
    | PlaceBody(id: Id, place: Place)
    | PlaceList(places: map<Id, Place>)
    | UserList(users: map<Id, PublicUser>)
    | Session(userId: Id, email: string, token: string)
    | Message(text: string)

  datatype Response =
    | Success(status: int, body: Body)
    | Failure(error: HttpError)
    | NoResponse

  /**
   * One request's effect on the store: the response, both tables afterwards,
   * and the image file scheduled for removal once the transaction committed.
   */
  datatype Outcome = Outcome(
    response: Response,
    users: map<Id, User>,
    places: map<Id, Place>,
    unlink: Option<string>)
}
