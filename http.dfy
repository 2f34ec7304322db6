/**
 * What the routers and services share: the authenticated caller as the
 * security layer hands it over, and the HTTP errors they raise.
 */
module Http {
  /** A UUID, compared only for equality. */
  type Uuid = nat

  /** The current user: their id and the names of their permissions, as listed. */
  datatype Caller = Caller(userId: Uuid, permissions: seq<string>)

  /** An `HTTPException` with its status code and detail text. */
  datatype HttpError = HttpError(status: nat, detail: string)

  const Forbidden: nat := 403
  const NotFound: nat := 404
}
