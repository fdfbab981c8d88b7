/**
 * The single-session model that login, logout and the authentication
 * pipeline give together: a new login invalidates the previous token,
 * logout invalidates the current one, and other users' sessions are left
 * alone.
 */
module Sessions {
  import opened Wrappers
  import opened Exceptions
  import opened Bcrypt
  import opened UserValidation
  import opened Store
  import opened Middleware
  import opened Guard
  import opened ErrorFilter
  import opened Users

  /** After a re-login, the old token resolves to nobody and the new one to the user. */
  lemma ReloginRevokesOldToken(users: map<string, User>, username: string, oldToken: string, newToken: string)
    requires UsersValid(users) && username in users
    requires users[username].token == Some(oldToken)
    requires FreshToken(users, newToken)
    ensures UsersValid(WithToken(users, username, Some(newToken)))
    ensures Resolve(WithToken(users, username, Some(newToken)), Some(oldToken)).None?
    ensures Resolve(WithToken(users, username, Some(newToken)), Some(newToken)) ==
      Some(WithToken(users, username, Some(newToken))[username])
  {
    WithTokenValid(users, username, Some(newToken));
  }

  /** After logout, the user's former token resolves to nobody. */
  lemma LogoutRevokesToken(users: map<string, User>, username: string, token: string)
    requires UsersValid(users) && username in users
    requires users[username].token == Some(token)
    ensures UsersValid(WithToken(users, username, None))
    ensures Resolve(WithToken(users, username, None), Some(token)).None?
  {
    WithTokenValid(users, username, None);
  }

  /** Changing one user's token leaves every other user's token resolving as before. */
  lemma OtherSessionsKept(users: map<string, User>, username: string, token: Option<string>, other: string)
    requires UsersValid(users) && username in users
    requires token.Some? ==> FreshToken(users, token.value)
    requires other in users && other != username && users[other].token.Some?
    ensures UsersValid(WithToken(users, username, token))
    ensures Resolve(WithToken(users, username, token), users[other].token) == Some(users[other])
  {
    WithTokenValid(users, username, token);
    var after := WithToken(users, username, token);
    assert after[other] == users[other];
  }

  /** Registration, then the same registration again, which fails with a 400. */
  method RegisterScenario()
  {
    var prisma := new Database();
    var service := new UserService(prisma);
    var salt := "abcdefghijklmnopqrstuv";
    var registered := service.Register(RegisterPayload(Some("test"), Some("test"), Some("test")), salt);
    assert registered == Success(UserResponse("test", "test", None));
    var duplicate := service.Register(RegisterPayload(Some("test"), Some("test"), Some("test")), salt);
    assert duplicate == Failure(UsernameTaken);
    assert Catch<UserResponse>(duplicate.error).status == 400;
  }

  /** Two logins in a row: only the second token still authenticates. */
  method RotationScenario()
  {
    var salt := "abcdefghijklmnopqrstuv";
    var prisma := new Database();
    prisma.users := map["test" := User("test", Hash("test", salt), "test", None)];
    var service := new UserService(prisma);
    var middleware := new AuthMiddleware(prisma);
    var credentials := LoginPayload(Some("test"), Some("test"));
    assert LoginValid(credentials);
    var first := service.Login(credentials, "token-1");
    assert first == Success(UserResponse("test", "test", Some("token-1")));
    assert prisma.users == map["test" := User("test", Hash("test", salt), "test", Some("token-1"))];
    var second := service.Login(credentials, "token-2");
    assert second == Success(UserResponse("test", "test", Some("token-2")));
    assert prisma.users == map["test" := User("test", Hash("test", salt), "test", Some("token-2"))];

    var stale := new Request(Some("token-1"));
    middleware.Use(stale);
    assert Auth(stale.user) == Failure(Unauthorized);

    var current := new Request(Some("token-2"));
    middleware.Use(current);
    assert Auth(current.user) == Success(prisma.users["test"]);
  }

  /** A wrong token is refused; after logout the former token is refused too. */
  method LogoutScenario()
  {
    var salt := "abcdefghijklmnopqrstuv";
    var prisma := new Database();
    prisma.users := map["test" := User("test", Hash("test", salt), "test", Some("test"))];
    var service := new UserService(prisma);
    var middleware := new AuthMiddleware(prisma);

    var wrong := new Request(Some("wrong"));
    middleware.Use(wrong);
    assert Catch<bool>(Auth(wrong.user).error) == ErrorResponse(401, WebResponse(None, Some("Unauthorized")));

    var current := new Request(Some("test"));
    middleware.Use(current);
    assert Auth(current.user) == Success(prisma.users["test"]);
    var bye := service.Logout(Auth(current.user).value);
    assert bye == UserResponse("test", "test", None);
    assert prisma.users["test"].token.None?;

    var after := new Request(Some("test"));
    middleware.Use(after);
    assert Auth(after.user) == Failure(Unauthorized);
  }

  /** A name-only update keeps the password and the session. */
  method RenameScenario()
  {
    var salt := "abcdefghijklmnopqrstuv";
    var prisma := new Database();
    prisma.users := map["test" := User("test", Hash("test", salt), "test", Some("test"))];
    var service := new UserService(prisma);
    var rename := UpdateUserRequest(Some("renamed"), None);
    assert UpdateValid(rename);
    var renamed := service.Update(prisma.users["test"], rename, salt);
    assert renamed == Success(UserResponse("test", "renamed", None));
    assert Verify("test", prisma.users["test"].password);
    assert prisma.users["test"].token == Some("test");
  }

  /** A password-only update keeps the name, and the new password then logs in. */
  method RekeyScenario()
  {
    var salt := "abcdefghijklmnopqrstuv";
    var prisma := new Database();
    prisma.users := map["test" := User("test", Hash("test", salt), "test", None)];
    var service := new UserService(prisma);
    var rekey := UpdateUserRequest(None, Some("updated"));
    assert UpdateValid(rekey);
    var rekeyed := service.Update(prisma.users["test"], rekey, salt);
    assert rekeyed == Success(UserResponse("test", "test", None));
    var credentials := LoginPayload(Some("test"), Some("updated"));
    assert LoginValid(credentials);
    var login := service.Login(credentials, "token-2");
    assert login == Success(UserResponse("test", "test", Some("token-2")));
  }

  /** Empty strings are refused with a 400 and change nothing. */
  method EmptyUpdateScenario()
  {
    var salt := "abcdefghijklmnopqrstuv";
    var prisma := new Database();
    prisma.users := map["test" := User("test", Hash("test", salt), "test", Some("test"))];
    var service := new UserService(prisma);
    var empty := UpdateUserRequest(Some(""), Some(""));
    assert !UpdateValid(empty);
    var rejected := service.Update(prisma.users["test"], empty, salt);
    assert rejected.Failure? && Catch<UserResponse>(rejected.error).status == 400;
    assert prisma.users["test"] == User("test", Hash("test", salt), "test", Some("test"));
  }
}
