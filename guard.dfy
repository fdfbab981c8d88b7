/**
 * The `Auth` parameter decorator: the one place where a request without
 * an identity is turned away.
 */
module Guard {
  import opened Wrappers
  import opened Exceptions
  import opened Store
  import opened Middleware

  /** The attached user, or a 401 "Unauthorized" when there is none. */
  function Auth(attached: Option<User>): (r: Result<User, Failure>)
    ensures r.Success? <==> attached.Some?
    ensures r.Success? ==> r.value == attached.value
    ensures r.Failure? ==> r.error == Unauthorized && r.error.status == 401
  {
    match attached
    case Some(user) => Success(user)
    case None => Failure(Unauthorized)
  }

  /**
   * On a fresh request, a header that is missing, empty or held by no user
   * ends in a 401; a header held by a user yields exactly that user.
   */
  lemma GuardAfterResolve(users: map<string, User>, header: Option<string>)
    requires UsersValid(users)
    ensures Auth(Resolve(users, header)).Failure? <==>
      header.None? || header.value == "" || !TokenInUse(users, header.value)
    ensures Auth(Resolve(users, header)).Failure? ==> Auth(Resolve(users, header)).error == Unauthorized
    ensures Auth(Resolve(users, header)).Success? ==>
      var u := Auth(Resolve(users, header)).value;
      u.token == header && u.username in users && users[u.username] == u
  {
  }
}
