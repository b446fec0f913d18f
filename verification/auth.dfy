/**
 * AuthMiddleware: the basic-auth gate in front of the post routes.  Every
 * request is checked on its own against one fixed identity, the dummy user.
 */
module Auth {
  import opened Http

  const AdminUsername := "admin"
  const AdminPassword := "password123"

  /**
   * The gate rejects a request with no well-formed credentials, or whose
   * username or password differs from the dummy user's.
   */
  function Authorized(creds: BasicAuth): (ok: bool)
    ensures ok <==> creds == Credentials(AdminUsername, AdminPassword)
  {
    match creds
    case NoCredentials => false
    case Credentials(username, password) => !(username != AdminUsername || password != AdminPassword)
  }

  /** The reply written when the gate aborts a request. */
  function UnauthorizedReply<T>(): (r: Reply<T>)
    ensures r.status == StatusUnauthorized
  {
    Reply(StatusUnauthorized, Keyed("status", "unauthorized"))
  }
}
