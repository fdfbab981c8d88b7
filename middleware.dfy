/**
 * `AuthMiddleware`, run on every request: the raw `Authorization` header
 * is the token; a user holding it is attached to the request, and the
 * request goes on in every case.
 */
module Middleware {
  import opened Wrappers
  import opened Store

  /** The parts of an incoming request the authentication pipeline touches. */
  class Request {
    /** The `authorization` header, verbatim; missing when not sent. */
    const authorization: Option<string>
    /** The identity attached by the middleware. */
    var user: Option<User>

    constructor (authorization: Option<string>)
      ensures this.authorization == authorization && user.None?
    {
      this.authorization := authorization;
      user := None;
    }
  }

  /**
   * The identity the middleware attaches for a header: none for a missing
   * or empty header, otherwise the stored user whose token is exactly the
   * header value, if there is one.
   */
  function Resolve(users: map<string, User>, header: Option<string>): (r: Option<User>)
    requires UsersValid(users)
    ensures r.Some? <==> header.Some? && header.value != "" && TokenInUse(users, header.value)
    ensures r.Some? ==>
      r.value.token == header && r.value.username in users && users[r.value.username] == r.value
  {
    if header.Some? && header.value != "" then FindFirstByToken(users, header.value) else None
  }

  class AuthMiddleware {
    const prisma: Database

    constructor (prisma: Database)
      ensures this.prisma == prisma
    {
      this.prisma := prisma;
    }

    /**
     * `use(req, res, next)`: never rejects and never writes to the store;
     * it only sets `req.user` when the header resolves to a user.
     */
    method Use(req: Request)
      requires prisma.Valid()
      modifies req
      ensures unchanged(prisma)
      ensures req.user == if Resolve(prisma.users, req.authorization).Some?
                          then Resolve(prisma.users, req.authorization) else old(req.user)
    {
      var token := req.authorization;
      if token.Some? && token.value != "" {
        var user := FindFirstByToken(prisma.users, token.value);
        if user.Some? {
          req.user := user;
        }
      }
    }
  }
}
